/** The item endpoints of the shopping-list API (backend/main.py).
    Add, remove and toggle load the stored list, transform it and may save it;
    here the loaded list is a parameter and the list handed to the save step is
    part of the result (`None` when the endpoint does not save). */
module Backend {
  import opened Items
  import Seqs

  /** One record of the stored JSON array. The code reads `id` and `completed`
      with `dict.get`, so a record may lack them; `addedAt` is optional in the
      item model. */
  datatype Record = Record(
    id: Option<int>,
    name: string,
    quantity: int,
    category: string,
    emoji: string,
    addedAt: Option<string>,
    completed: Option<bool>)

  /** The only error the item endpoints raise: HTTP 404, "Item not found". */
  datatype HttpError = NotFound

  datatype Result<T> = Ok(value: T) | Err(error: HttpError)

  /** Body of a successful removal: "Item <id> removed successfully". */
  datatype Removed = Removed(itemId: int)

  /** Body of a successful toggle: "Item <id> toggled" and the new flag. */
  datatype Toggled = Toggled(itemId: int, completed: bool)

  /** What an endpoint answers, and the list it saves (`None`: no save). */
  datatype Outcome<T> = Outcome(reply: Result<T>, write: Option<seq<Record>>)

  /** The flag as the endpoints read it: a record without one is not completed. */
  function Completed(r: Record): bool {
    r.completed.GetOr(false)
  }

  /** Whether the record carries the id; a record without an id matches nothing. */
  predicate HasId(r: Record, itemId: int) {
    r.id == Some(itemId)
  }

  /** The dictionary an item model is stored as. */
  function AsRecord(it: Item): Record {
    Record(it.id, it.name, it.quantity, it.category, it.emoji, it.addedAt, Some(it.completed))
  }

  /** A stored record read back through the item model, as the list endpoint
      does: a missing `completed` takes its default `False`. */
  function Served(r: Record): Item {
    Item(r.id, r.name, r.quantity, r.category, r.emoji, r.addedAt, Completed(r))
  }

  /** An item written by the add endpoint reads back unchanged. */
  lemma ServedAsRecord(it: Item)
    ensures Served(AsRecord(it)) == it
  {
  }

  // ---------------------------------------------------------------- add

  /** The item the add endpoint creates for `req` on top of `stored`: its id is
      one more than the number of stored records, whatever ids they carry. */
  function NewItem(stored: seq<Record>, req: Draft, now: string): Item {
    Item(Some(|stored| + 1), req.name, req.quantity, req.category, req.emoji, Some(now), false)
  }

  /** `add_item`: append the new record and save. `now` is the timestamp the
      endpoint takes from the clock. */
  method AddItem(stored: seq<Record>, req: Draft, now: string) returns (created: Item, write: seq<Record>)
    ensures created.id == Some(|stored| + 1) && !created.completed && created.addedAt == Some(now)
    ensures created.name == req.name && created.quantity == req.quantity
    ensures created.category == req.category && created.emoji == req.emoji
    ensures |write| == |stored| + 1 && write[..|stored|] == stored
    ensures write[|stored|] == AsRecord(created)
  {
    var items := stored;
    created := NewItem(items, req, now);
    items := items + [AsRecord(created)];
    write := items;
  }

  // ---------------------------------------------------------------- remove

  /** The condition of the removal comprehension. */
  function KeepOthers(itemId: int): Record -> bool {
    r => !HasId(r, itemId)
  }

  /** The records that survive a removal of `itemId`, in their stored order. */
  function Kept(stored: seq<Record>, itemId: int): seq<Record> {
    Seqs.Filter(stored, KeepOthers(itemId))
  }

  /** `remove_item`: drop every record with the id; if the length did not
      change, answer 404 without saving. */
  function RemoveItem(stored: seq<Record>, itemId: int): (out: Outcome<Removed>)
    ensures out.reply.Err? <==> forall i :: 0 <= i < |stored| ==> !HasId(stored[i], itemId)
    ensures out.reply.Err? ==> out.reply.error == NotFound && out.write == None
    ensures out.reply.Ok? ==> out.reply.value == Removed(itemId) && out.write.Some?
    ensures out.write.Some? ==> out.write.value == Kept(stored, itemId)
    ensures out.write.Some? ==>
      forall r :: r in out.write.value <==> r in stored && !HasId(r, itemId)
  {
    var kept := Kept(stored, itemId);
    Seqs.FilterKeepsAllIff(stored, KeepOthers(itemId));
    if |kept| == |stored| then Outcome(Err(NotFound), None)
    else Outcome(Ok(Removed(itemId)), Some(kept))
  }

  /** Removing an id again after a successful removal finds nothing. */
  lemma RemoveTwiceNotFound(stored: seq<Record>, itemId: int)
    requires RemoveItem(stored, itemId).reply.Ok?
    ensures RemoveItem(RemoveItem(stored, itemId).write.value, itemId).reply == Err(NotFound)
  {
  }

  /** Removing the id an add has just handed out restores the stored list,
      provided no earlier record already carried that id. */
  lemma RemoveUndoesAdd(stored: seq<Record>, req: Draft, now: string)
    requires forall i :: 0 <= i < |stored| ==> !HasId(stored[i], |stored| + 1)
    ensures var added := stored + [AsRecord(NewItem(stored, req, now))];
            RemoveItem(added, |stored| + 1) == Outcome(Ok(Removed(|stored| + 1)), Some(stored))
  {
    var rec := AsRecord(NewItem(stored, req, now));
    var keep := KeepOthers(|stored| + 1);
    Seqs.FilterConcat(stored, [rec], keep);
    assert forall i :: 0 <= i < |stored| ==> keep(stored[i]);
    Seqs.FilterKeepsAllIff(stored, keep);
    assert Seqs.Filter([rec], keep) == [];
    var added := stored + [rec];
    assert Kept(added, |stored| + 1) == stored;
    assert HasId(added[|stored|], |stored| + 1);
  }

  /** Ids are not unique: after the first of two records is removed, the next
      add hands out the id the remaining record still carries. */
  lemma IdReusedAfterRemove(a: Record, b: Record, req: Draft, now: string)
    requires a.id == Some(1) && b.id == Some(2)
    ensures RemoveItem([a, b], 1).write == Some([b])
    ensures NewItem([b], req, now).id == b.id
  {
    var keep := KeepOthers(1);
    assert [a, b] == [a] + [b];
    Seqs.FilterConcat([a], [b], keep);
    assert Seqs.Filter([a], keep) == [];
    assert Seqs.Filter([b], keep) == [b];
  }

  // ---------------------------------------------------------------- toggle

  /** The position of the first record with the id, if any. */
  function FirstMatch(s: seq<Record>, itemId: int): (k: Option<nat>)
    ensures k.Some? ==> k.value < |s| && HasId(s[k.value], itemId)
    ensures k.Some? ==> forall j :: 0 <= j < k.value ==> !HasId(s[j], itemId)
    ensures k.None? ==> forall j :: 0 <= j < |s| ==> !HasId(s[j], itemId)
    decreases |s|
  {
    if s == [] then None
    else if HasId(s[0], itemId) then Some(0)
    else match FirstMatch(s[1..], itemId)
      case None => None
      case Some(k) => Some(k + 1)
  }

  /** The record with its effective flag negated; the key is present afterwards. */
  function Flip(r: Record): Record {
    r.(completed := Some(!Completed(r)))
  }

  /** The stored list after a toggle of `itemId`: only the first match flips. */
  function Toggle(s: seq<Record>, itemId: int): seq<Record> {
    match FirstMatch(s, itemId)
    case None => s
    case Some(k) => s[k := Flip(s[k])]
  }

  /** `toggle_item`: walk the list, flip the first match, save and answer with
      the new flag; without a match answer 404 and save nothing. */
  method ToggleItem(stored: seq<Record>, itemId: int) returns (out: Outcome<Toggled>)
    ensures FirstMatch(stored, itemId).None? ==> out == Outcome(Err(NotFound), None)
    ensures FirstMatch(stored, itemId).Some? ==>
      var k := FirstMatch(stored, itemId).value;
      out == Outcome(Ok(Toggled(itemId, !Completed(stored[k]))), Some(Toggle(stored, itemId)))
  {
    var items := stored;
    var i := 0;
    while i < |items|
      invariant 0 <= i <= |items| && items == stored
      invariant forall j :: 0 <= j < i ==> !HasId(items[j], itemId)
    {
      if HasId(items[i], itemId) {
        items := items[i := Flip(items[i])];
        out := Outcome(Ok(Toggled(itemId, Completed(items[i]))), Some(items));
        return;
      }
      i := i + 1;
    }
    out := Outcome(Err(NotFound), None);
  }

  /** Two lists with the same ids position by position have the same first match. */
  lemma FirstMatchByIds(s: seq<Record>, t: seq<Record>, itemId: int)
    requires |s| == |t| && forall i :: 0 <= i < |s| ==> s[i].id == t[i].id
    ensures FirstMatch(s, itemId) == FirstMatch(t, itemId)
  {
  }

  /** A toggle negates the effective flag of the first match and changes
      nothing else: no other record, and no other field of that record. */
  lemma ToggleFlipsFirstMatchOnly(s: seq<Record>, itemId: int)
    ensures |Toggle(s, itemId)| == |s|
    ensures FirstMatch(s, itemId).None? ==> Toggle(s, itemId) == s
    ensures FirstMatch(s, itemId).Some? ==>
      var k, t := FirstMatch(s, itemId).value, Toggle(s, itemId);
      && Completed(t[k]) == !Completed(s[k])
      && t[k].(completed := s[k].completed) == s[k]
      && forall i :: 0 <= i < |s| && i != k ==> t[i] == s[i]
  {
  }

  /** Toggling the same id twice restores every effective flag, and restores
      the list itself exactly when the flipped record had a `completed` key. */
  lemma ToggleTwice(s: seq<Record>, itemId: int)
    ensures var t := Toggle(Toggle(s, itemId), itemId);
      && |t| == |s|
      && (forall i :: 0 <= i < |s| ==> Completed(t[i]) == Completed(s[i]))
      && (forall i :: 0 <= i < |s| ==> t[i].(completed := s[i].completed) == s[i])
      && (t == s <==> FirstMatch(s, itemId).None? || s[FirstMatch(s, itemId).value].completed.Some?)
  {
    FirstMatchByIds(s, Toggle(s, itemId), itemId);
  }

  // ---------------------------------------------------------------- defaults

  /** The fixed catalog `get_default_items` answers with. */
  function DefaultItems(): seq<Draft> {
    [ Draft("Milk", 1, "dairy", "🥛"),
      Draft("Bread", 1, "bakery", "🍞"),
      Draft("Eggs", 12, "dairy", "🥚"),
      Draft("Bananas", 6, "fruits", "🍌"),
      Draft("Chicken", 1, "meat", "🍗"),
      Draft("Rice", 1, "grains", "🍚"),
      Draft("Tomatoes", 4, "vegetables", "🍅"),
      Draft("Cheese", 1, "dairy", "🧀") ]
  }

  /** The catalog holds eight drafts with distinct names and positive
      quantities. */
  lemma DefaultItemsShape()
    ensures |DefaultItems()| == 8
    ensures forall i :: 0 <= i < 8 ==> DefaultItems()[i].quantity >= 1
    ensures forall i, j :: 0 <= i < j < 8 ==> DefaultItems()[i].name != DefaultItems()[j].name
  {
  }
}
