/** The records both halves of the application exchange: the add request
    (`AddItemRequest`, the page's draft) and the shopping item as the API
    serves it (`ShoppingItem`). */
module Items {

  datatype Option<T> = None | Some(value: T)
  {
    /** The carried value, or `default` when there is none. */
    function GetOr(default: T): T {
      match this
      case Some(v) => v
      case None => default
    }
  }

  /** An add request: everything the user chooses, no id, no timestamp. */
  datatype Draft = Draft(name: string, quantity: int, category: string, emoji: string)

  /** The defaults of the request model's optional fields. */
  const DefaultQuantity: int := 1
  const DefaultCategory: string := "general"
  const DefaultEmoji: string := "🛒"

  /** A request that names only the item: the other fields take their defaults. */
  function RequestNamed(name: string): Draft {
    Draft(name, DefaultQuantity, DefaultCategory, DefaultEmoji)
  }

  /** A shopping item as the API returns it. `id` and `addedAt` are optional in
      the model class, so a record read back without them carries `None`. */
  datatype Item = Item(
    id: Option<int>,
    name: string,
    quantity: int,
    category: string,
    emoji: string,
    addedAt: Option<string>,
    completed: bool)
}
