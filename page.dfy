/** The shopping-list page (frontend/app/page.tsx): the state it keeps and the
    handlers that change it. Each handler runs to completion; the outcome of
    every request it issues is a parameter, and the requests themselves are
    recorded, in order, in `sent`. */
module Page {
  import opened Items
  import Seqs

  /** The fixed message each handler shows when its request fails. */
  const LoadError: string := "Fehler beim Laden der Einkaufsliste"
  const AddError: string := "Fehler beim Hinzufügen des Artikels"
  const RemoveError: string := "Fehler beim Entfernen des Artikels"
  const ToggleError: string := "Fehler beim Umschalten des Artikels"
  const DefaultsError: string := "Fehler beim Laden der Standardartikel"

  /** The form's contents initially and after every successful add. */
  const BlankDraft: Draft := Draft("", 1, "general", "🛒")

  /** The choices the form offers. */
  const Categories: seq<string> := ["general", "dairy", "bakery", "fruits", "vegetables", "meat", "grains"]
  const EmojiOptions: seq<string> :=
    ["🛒", "🥛", "🍞", "🥚", "🍌", "🍗", "🍚", "🍅", "🧀", "🥕", "🥩", "🐟", "🍎", "🍊", "🥬", "🧂", "🫖", "☕"]

  /** A request the page sends through its API routes. */
  datatype Request =
    | GetList
    | PostAdd(draft: Draft)
    | DeleteItem(id: int)
    | PutToggle(id: int)
    | GetDefaults

  /** The row node of the item with this id (element id `item-<id>`), as
      captured when a handler looked it up; a later render draws a new node. */
  datatype Handle = RowElement(itemId: int)

  // ---------------------------------------------------------------- text input

  /** White space and line terminators as JavaScript's `String.prototype.trim`
      strips them. */
  predicate IsWhitespace(c: char) {
    c == ' ' || c == '\t' || c == '\n' || c == '\r' || c == '\U{000B}' || c == '\U{000C}'
    || c == '\U{00A0}' || c == '\U{1680}' || ('\U{2000}' <= c <= '\U{200A}')
    || c == '\U{2028}' || c == '\U{2029}' || c == '\U{202F}' || c == '\U{205F}'
    || c == '\U{3000}' || c == '\U{FEFF}'
  }

  predicate IsBlank(s: string) {
    forall i :: 0 <= i < |s| ==> IsWhitespace(s[i])
  }

  /** `s` without its leading white space. */
  function TrimStart(s: string): (r: string)
    ensures |r| <= |s|
    ensures r == [] <==> IsBlank(s)
    ensures r != [] ==> !IsWhitespace(r[0])
    decreases |s|
  {
    if s != [] && IsWhitespace(s[0]) then TrimStart(s[1..]) else s
  }

  /** `s` without its trailing white space. */
  function TrimEnd(s: string): (r: string)
    ensures |r| <= |s|
    ensures r == [] <==> IsBlank(s)
    decreases |s|
  {
    if s != [] && IsWhitespace(s[|s| - 1]) then TrimEnd(s[..|s| - 1]) else s
  }

  /** `s` trimmed at both ends; empty exactly when `s` is all white space. */
  function Trim(s: string): (r: string)
    ensures r == [] <==> IsBlank(s)
  {
    var t := TrimStart(s);
    assert t != [] ==> !IsBlank(t);
    TrimEnd(t)
  }

  /** The quantity field's value: `parsed` is what the number parser makes of
      the input (`None` for not-a-number); not-a-number and zero fall back to 1. */
  function QuantityInput(parsed: Option<int>): (q: int)
    ensures q != 0
    ensures parsed.Some? && parsed.value != 0 ==> q == parsed.value
    ensures parsed == None || parsed == Some(0) ==> q == 1
  {
    match parsed
    case Some(n) => if n != 0 then n else 1
    case None => 1
  }

  // ---------------------------------------------------------------- list updates

  /** The condition of the removal filter. */
  function KeepOthers(id: int): Item -> bool {
    (it: Item) => it.id != Some(id)
  }

  /** The list after a successful removal: every item with the id is gone. */
  function WithoutItem(items: seq<Item>, id: int): seq<Item> {
    Seqs.Filter(items, KeepOthers(id))
  }

  /** The update the toggle applies to every item. */
  function FlipIfId(id: int): Item -> Item {
    (it: Item) => if it.id == Some(id) then it.(completed := !it.completed) else it
  }

  /** The list after a successful toggle: every item with the id flips. */
  function WithToggled(items: seq<Item>, id: int): seq<Item> {
    Seqs.Map(items, FlipIfId(id))
  }

  /** A removal drops exactly the items with the id and keeps the rest in order. */
  lemma WithoutItemSpec(items: seq<Item>, rest: seq<Item>, id: int)
    ensures forall it :: it in WithoutItem(items, id) <==> it in items && it.id != Some(id)
    ensures WithoutItem(items + rest, id) == WithoutItem(items, id) + WithoutItem(rest, id)
    ensures (forall i :: 0 <= i < |items| ==> items[i].id != Some(id)) ==> WithoutItem(items, id) == items
  {
    Seqs.FilterConcat(items, rest, KeepOthers(id));
    Seqs.FilterKeepsAllIff(items, KeepOthers(id));
  }

  /** A toggle keeps length, order and every field but `completed`, and
      negates `completed` on every item with the id and no other. */
  lemma WithToggledSpec(items: seq<Item>, id: int)
    ensures |WithToggled(items, id)| == |items|
    ensures forall i :: 0 <= i < |items| ==>
      && WithToggled(items, id)[i].(completed := items[i].completed) == items[i]
      && (WithToggled(items, id)[i].completed != items[i].completed <==> items[i].id == Some(id))
  {
  }

  /** Toggling the same id twice restores the list. */
  lemma WithToggledTwice(items: seq<Item>, id: int)
    ensures WithToggled(WithToggled(items, id), id) == items
  {
  }

  // ---------------------------------------------------------------- bulk load

  /** The posts issued for `drafts`, one per draft, in order. */
  function Posts(drafts: seq<Draft>): (r: seq<Request>)
    ensures |r| == |drafts|
    ensures forall i :: 0 <= i < |drafts| ==> r[i] == PostAdd(drafts[i])
  {
    if drafts == [] then []
    else Posts(drafts[..|drafts| - 1]) + [PostAdd(drafts[|drafts| - 1])]
  }

  /** The first of the posts numbered `from` to `n - 1` that fails, if any;
      `ok(i)` is the outcome of post number `i`. */
  function FirstRejected(ok: nat -> bool, from: nat, n: nat): (r: Option<nat>)
    requires from <= n
    ensures r.Some? ==> from <= r.value < n && !ok(r.value)
    ensures r.Some? ==> forall j :: from <= j < r.value ==> ok(j)
    ensures r.None? ==> forall j :: from <= j < n ==> ok(j)
    decreases n - from
  {
    if from == n then None
    else if !ok(from) then Some(from)
    else FirstRejected(ok, from + 1, n)
  }

  /** Post `i` is the first rejected one when every earlier post was accepted. */
  lemma FirstRejectedAt(ok: nat -> bool, i: nat, n: nat)
    requires i < n && !ok(i) && forall j :: 0 <= j < i ==> ok(j)
    ensures FirstRejected(ok, 0, n) == Some(i)
  {
  }

  /** Appending one draft appends its post. */
  lemma PostsStep(drafts: seq<Draft>, i: nat)
    requires i < |drafts|
    ensures Posts(drafts[..i + 1]) == Posts(drafts[..i]) + [PostAdd(drafts[i])]
  {
  }

  // ---------------------------------------------------------------- the page

  class Home {
    var items: seq<Item>
    /** The add form. */
    var newItem: Draft
    var loading: bool
    /** The banner text; no banner when empty. */
    var error: string
    /** The row a remove or toggle last found on screen; never cleared. */
    var lastAction: Option<Handle>
    /** The row to bring into view after the next change of `items`. */
    var scrollTo: Option<Handle>
    /** Whether `items` was replaced since the layout effect last ran. */
    var itemsRenewed: bool
    /** Every request issued so far, in order. */
    var sent: seq<Request>

    /** The first render: an empty list, a blank form, no banner. */
    constructor ()
      ensures items == [] && newItem == BlankDraft && !loading && error == ""
      ensures lastAction == None && scrollTo == None && itemsRenewed && sent == []
    {
      items := [];
      newItem := BlankDraft;
      loading := false;
      error := "";
      lastAction := None;
      scrollTo := None;
      itemsRenewed := true;
      sent := [];
    }

    /** The layout effect that follows a render in which `items` changed: the
        pending row, if any, is scrolled into view and the slot is cleared.
        Without a change of `items` the effect does not run. */
    method LayoutEffect() returns (scrolled: Option<Handle>)
      modifies this
      ensures scrolled == (if old(itemsRenewed) then old(scrollTo) else None)
      ensures scrollTo == (if old(itemsRenewed) then None else old(scrollTo))
      ensures !itemsRenewed
      ensures items == old(items) && newItem == old(newItem) && loading == old(loading)
      ensures error == old(error) && lastAction == old(lastAction) && sent == old(sent)
    {
      scrolled := None;
      if itemsRenewed {
        if scrollTo.Some? {
          scrolled := scrollTo;
          scrollTo := None;
        }
        itemsRenewed := false;
      }
    }

    /** Fetch the list; on success it replaces `items` wholesale and leaves the
        banner as it was. Also run once when the page mounts. */
    method LoadShoppingList(reply: Option<seq<Item>>)
      modifies this
      ensures sent == old(sent) + [GetList] && !loading
      ensures reply.Some? ==> items == reply.value && itemsRenewed && error == old(error)
      ensures reply.None? ==> items == old(items) && itemsRenewed == old(itemsRenewed) && error == LoadError
      ensures newItem == old(newItem) && lastAction == old(lastAction) && scrollTo == old(scrollTo)
    {
      loading := true;
      sent := sent + [GetList];
      if reply.Some? {
        items := reply.value;
        itemsRenewed := true;
      } else {
        error := LoadError;
      }
      loading := false;
    }

    /** Submit the form. A name that is blank after trimming does nothing at
        all; otherwise the server's item is appended and the form reset. */
    method AddItem(reply: Option<Item>)
      modifies this
      ensures IsBlank(old(newItem.name)) ==>
        && items == old(items) && newItem == old(newItem) && loading == old(loading)
        && error == old(error) && itemsRenewed == old(itemsRenewed) && sent == old(sent)
      ensures !IsBlank(old(newItem.name)) ==> sent == old(sent) + [PostAdd(old(newItem))] && !loading
      ensures !IsBlank(old(newItem.name)) && reply.Some? ==>
        items == old(items) + [reply.value] && itemsRenewed && newItem == BlankDraft && error == ""
      ensures !IsBlank(old(newItem.name)) && reply.None? ==>
        items == old(items) && itemsRenewed == old(itemsRenewed) && newItem == old(newItem) && error == AddError
      ensures lastAction == old(lastAction) && scrollTo == old(scrollTo)
    {
      if Trim(newItem.name) == "" {
        return;
      }
      loading := true;
      sent := sent + [PostAdd(newItem)];
      if reply.Some? {
        items := items + [reply.value];
        itemsRenewed := true;
        newItem := BlankDraft;
        error := "";
      } else {
        error := AddError;
      }
      loading := false;
    }

    /** Delete an item. `rowShown` says whether the item's row was on screen
        when the handler started; if so it becomes the last acted-upon row.
        Afterwards the last acted-upon row, if any, is queued for scrolling. */
    method RemoveItem(id: int, rowShown: bool, ok: bool)
      modifies this
      ensures lastAction == (if rowShown then Some(RowElement(id)) else old(lastAction))
      ensures scrollTo == (if lastAction.Some? then lastAction else old(scrollTo))
      ensures sent == old(sent) + [DeleteItem(id)] && !loading && newItem == old(newItem)
      ensures ok ==> items == WithoutItem(old(items), id) && itemsRenewed && error == ""
      ensures !ok ==> items == old(items) && itemsRenewed == old(itemsRenewed) && error == RemoveError
    {
      if rowShown {
        lastAction := Some(RowElement(id));
      }
      loading := true;
      sent := sent + [DeleteItem(id)];
      if ok {
        items := WithoutItem(items, id);
        itemsRenewed := true;
        error := "";
      } else {
        error := RemoveError;
      }
      loading := false;
      if lastAction.Some? {
        scrollTo := lastAction;
      }
    }

    /** Toggle an item; the row bookkeeping is that of `RemoveItem`. */
    method ToggleItem(id: int, rowShown: bool, ok: bool)
      modifies this
      ensures lastAction == (if rowShown then Some(RowElement(id)) else old(lastAction))
      ensures scrollTo == (if lastAction.Some? then lastAction else old(scrollTo))
      ensures sent == old(sent) + [PutToggle(id)] && !loading && newItem == old(newItem)
      ensures ok ==> items == WithToggled(old(items), id) && itemsRenewed && error == ""
      ensures !ok ==> items == old(items) && itemsRenewed == old(itemsRenewed) && error == ToggleError
    {
      if rowShown {
        lastAction := Some(RowElement(id));
      }
      loading := true;
      sent := sent + [PutToggle(id)];
      if ok {
        items := WithToggled(items, id);
        itemsRenewed := true;
        error := "";
      } else {
        error := ToggleError;
      }
      loading := false;
      if lastAction.Some? {
        scrollTo := lastAction;
      }
    }

    /** Post `drafts` one after another, each only after the previous one was
        accepted, and stop at the first rejected post, which is reported. */
    method PostDrafts(drafts: seq<Draft>, postOk: nat -> bool) returns (rejected: Option<nat>)
      modifies this`sent
      ensures rejected == FirstRejected(postOk, 0, |drafts|)
      ensures rejected.Some? ==> sent == old(sent) + Posts(drafts[..rejected.value + 1])
      ensures rejected.None? ==> sent == old(sent) + Posts(drafts)
    {
      var i := 0;
      while i < |drafts|
        invariant 0 <= i <= |drafts|
        invariant sent == old(sent) + Posts(drafts[..i])
        invariant forall j :: 0 <= j < i ==> postOk(j)
      {
        PostsStep(drafts, i);
        sent := sent + [PostAdd(drafts[i])];
        if !postOk(i) {
          FirstRejectedAt(postOk, i, |drafts|);
          return Some(i);
        }
        i := i + 1;
      }
      assert drafts[..i] == drafts;
      return None;
    }

    /** Fetch the catalog, post its drafts in order, stopping at the first
        failed post, and reload the list when all were accepted. Accepted
        posts are never undone. The reload's own failure message is
        overwritten by the empty banner. `catalog` is the catalog reply,
        `postOk(i)` the outcome of post `i`, `reload` the reply to the final
        list request. */
    method LoadDefaults(catalog: Option<seq<Draft>>, postOk: nat -> bool, reload: Option<seq<Item>>)
      modifies this
      ensures !loading && newItem == old(newItem)
      ensures lastAction == old(lastAction) && scrollTo == old(scrollTo)
      ensures catalog.None? ==>
        && sent == old(sent) + [GetDefaults] && error == DefaultsError
        && items == old(items) && itemsRenewed == old(itemsRenewed)
      ensures catalog.Some? ==>
        match FirstRejected(postOk, 0, |catalog.value|)
        case Some(k) =>
          && sent == old(sent) + [GetDefaults] + Posts(catalog.value[..k + 1])
          && error == DefaultsError && items == old(items) && itemsRenewed == old(itemsRenewed)
        case None =>
          && sent == old(sent) + [GetDefaults] + Posts(catalog.value) + [GetList]
          && error == ""
          && items == (if reload.Some? then reload.value else old(items))
          && itemsRenewed == (reload.Some? || old(itemsRenewed))
    {
      loading := true;
      sent := sent + [GetDefaults];
      if catalog.None? {
        error := DefaultsError;
        loading := false;
        return;
      }
      var rejected := PostDrafts(catalog.value, postOk);
      if rejected.Some? {
        error := DefaultsError;
        loading := false;
        return;
      }
      LoadShoppingList(reload);
      error := "";
      loading := false;
    }

    /** Typing in the name field. */
    method EditName(value: string)
      modifies this`newItem
      ensures newItem == old(newItem).(name := value)
    {
      newItem := newItem.(name := value);
    }

    /** Typing in the quantity field; `parsed` is the parsed input. */
    method EditQuantity(parsed: Option<int>)
      modifies this`newItem
      ensures newItem == old(newItem).(quantity := QuantityInput(parsed))
    {
      newItem := newItem.(quantity := QuantityInput(parsed));
    }

    /** Choosing a category. */
    method EditCategory(value: string)
      modifies this`newItem
      ensures newItem == old(newItem).(category := value)
    {
      newItem := newItem.(category := value);
    }

    /** Choosing an emoji. */
    method EditEmoji(value: string)
      modifies this`newItem
      ensures newItem == old(newItem).(emoji := value)
    {
      newItem := newItem.(emoji := value);
    }
  }
}
