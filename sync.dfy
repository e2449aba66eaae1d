/** How the page's list relates to the stored list. The page updates its copy
    locally after each successful request instead of reloading; these lemmas
    compare that copy with what a reload of the stored records would show. */
module Sync {
  import opened Items
  import Seqs
  import Backend
  import Page

  /** What a list request answers for the stored records. */
  function View(stored: seq<Backend.Record>): seq<Item> {
    Seqs.Map(stored, Backend.Served)
  }

  /** Appending the add endpoint's answer gives what a reload would show. */
  lemma AddStaysInSync(stored: seq<Backend.Record>, req: Draft, now: string)
    ensures var created := Backend.NewItem(stored, req, now);
      View(stored + [Backend.AsRecord(created)]) == View(stored) + [created]
  {
  }

  /** The page's removal filter agrees with the endpoint's, for any stored
      list, duplicated ids included. */
  lemma RemoveStaysInSync(stored: seq<Backend.Record>, id: int)
    ensures View(Backend.Kept(stored, id)) == Page.WithoutItem(View(stored), id)
  {
    Seqs.MapFilterCommute(stored, Backend.Served, Backend.KeepOthers(id), Page.KeepOthers(id));
  }

  /** After a successful removal a reload shows no item with the id. */
  lemma RemovedIdGoneAfterReload(stored: seq<Backend.Record>, id: int)
    requires Backend.RemoveItem(stored, id).reply.Ok?
    ensures forall it :: it in View(Backend.RemoveItem(stored, id).write.value) ==> it.id != Some(id)
  {
    var after := Backend.RemoveItem(stored, id).write.value;
    forall it | it in View(after) ensures it.id != Some(id) {
      var i :| 0 <= i < |after| && View(after)[i] == it;
      assert after[i] in after;
    }
  }

  /** The page flips every item with the id, the endpoint only the first: the
      two agree when at most one stored record carries the id. */
  lemma ToggleStaysInSyncWhenIdUnique(stored: seq<Backend.Record>, id: int)
    requires forall i, j :: 0 <= i < j < |stored| && Backend.HasId(stored[i], id) ==> !Backend.HasId(stored[j], id)
    ensures View(Backend.Toggle(stored, id)) == Page.WithToggled(View(stored), id)
  {
  }

  /** Ids are not unique, and then the page drifts from the stored list: after
      removing the first of two records, an add hands out the id of the
      second again, and a toggle of that id flips one stored record but two
      items on the page. */
  lemma IdReuseMakesToggleDrift(a: Backend.Record, b: Backend.Record, req: Draft, now: string)
    requires a.id == Some(1) && b.id == Some(2)
    ensures var s := [b, Backend.AsRecord(Backend.NewItem([b], req, now))];
      && Backend.RemoveItem([a, b], 1).write == Some([b])
      && s[0].id == s[1].id
      && View(Backend.Toggle(s, 2))[0].completed != View(s)[0].completed
      && View(Backend.Toggle(s, 2))[1].completed == View(s)[1].completed
      && Page.WithToggled(View(s), 2)[0].completed != View(s)[0].completed
      && Page.WithToggled(View(s), 2)[1].completed != View(s)[1].completed
      && View(Backend.Toggle(s, 2)) != Page.WithToggled(View(s), 2)
  {
    Backend.IdReusedAfterRemove(a, b, req, now);
    var s := [b, Backend.AsRecord(Backend.NewItem([b], req, now))];
    assert Backend.FirstMatch(s, 2) == Some(0);
    assert View(Backend.Toggle(s, 2))[1].completed == false;
    assert Page.WithToggled(View(s), 2)[1].completed == true;
  }

  /** The worked example: adding Milk to an empty list creates item 1, which
      the page appends; toggling it completes it in place; removing it
      empties the list, on the server and on the page. */
  lemma MilkScenario(now: string)
    ensures var milk := Backend.NewItem([], Draft("Milk", 2, "dairy", "🥛"), now);
      && milk == Item(Some(1), "Milk", 2, "dairy", "🥛", Some(now), false)
      && Backend.Toggle([Backend.AsRecord(milk)], 1) == [Backend.AsRecord(milk.(completed := true))]
      && Page.WithToggled([milk], 1) == [milk.(completed := true)]
      && Backend.RemoveItem([Backend.AsRecord(milk.(completed := true))], 1).write == Some([])
      && Page.WithoutItem([milk.(completed := true)], 1) == []
  {
  }

  /** Every catalog draft is one the add form could have produced: a
      non-blank name, a quantity the field keeps, and a category and emoji
      the form offers. */
  lemma CatalogFitsForm()
    ensures forall d :: d in Backend.DefaultItems() ==>
      && !Page.IsBlank(d.name)
      && Page.QuantityInput(Some(d.quantity)) == d.quantity
      && d.category in Page.Categories
      && d.emoji in Page.EmojiOptions
  {
    forall d | d in Backend.DefaultItems()
      ensures !Page.IsBlank(d.name)
    {
      assert !Page.IsWhitespace(d.name[0]);
    }
  }

  /** The page resets its form to the request defaults with an empty name. */
  lemma BlankDraftIsRequestDefaults()
    ensures Page.BlankDraft == RequestNamed("")
  {
  }
}
