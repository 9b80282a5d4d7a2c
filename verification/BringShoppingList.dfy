/**
 * The Bring! shopping-list module (PublishedModules/philipp2310/
 * BringShoppingList): adding, deleting and checking items against a
 * case-insensitive snapshot of the purchase list, reading the requested
 * items from the session, and composing the spoken answer.
 *
 * The Bring! account is modelled as the local purchase list of a
 * `ShoppingList` object. `randomTalk` is modelled by the `Speech` it is
 * asked to say.
 */
module BringShoppingList {
  import opened Wrappers
  import opened Text
  import opened Dialog

  const AnswerShopIntent := "whatItem_bringshop"
  const SpellWordIntent := "SpellWord"
  const ConfirmDeleteIntent := "AnswerYesOrNo"

  /** What an intent handler makes the host do. */
  datatype Reply =
    | Reprompt(action: Action)   // continueDialog
    | Say(speech: Speech)        // endDialog with the composed text
    | Quiet                      // the handler returns without a call
    | Crashed(error: string)     // the handler raises

  // ------------------------------------------------ case-insensitive lookup

  /** `entr['name'].lower() == item.lower()`. */
  predicate Matches(entry: string, item: string)
  {
    Lower(entry) == Lower(item)
  }

  /** Some entry of the list matches the item. */
  predicate OnList(list: seq<string>, item: string)
  {
    exists i :: 0 <= i < |list| && Matches(list[i], item)
  }

  /** The items that are on the list, in request order. */
  function Present(list: seq<string>, items: seq<string>): seq<string>
  {
    if items == [] then []
    else
      var last := items[|items| - 1];
      Present(list, items[..|items| - 1]) + (if OnList(list, last) then [last] else [])
  }

  /** The items that are not on the list, in request order. */
  function Absent(list: seq<string>, items: seq<string>): seq<string>
  {
    if items == [] then []
    else
      var last := items[|items| - 1];
      Absent(list, items[..|items| - 1]) + (if OnList(list, last) then [] else [last])
  }

  /** The two lists split the requested items: each item lands in exactly one of them. */
  lemma PresentAbsentSplit(list: seq<string>, items: seq<string>)
    ensures multiset(Present(list, items)) + multiset(Absent(list, items)) == multiset(items)
    ensures forall x :: x in Present(list, items) <==> x in items && OnList(list, x)
    ensures forall x :: x in Absent(list, items) <==> x in items && !OnList(list, x)
  {
    PresentAbsentCount(list, items);
    PresentAbsentMembers(list, items);
  }

  lemma {:induction false} PresentAbsentCount(list: seq<string>, items: seq<string>)
    ensures multiset(Present(list, items)) + multiset(Absent(list, items)) == multiset(items)
  {
    if items != [] {
      var init := items[..|items| - 1];
      PresentAbsentCount(list, init);
      assert items == init + [items[|items| - 1]];
    }
  }

  lemma {:induction false} PresentAbsentMembers(list: seq<string>, items: seq<string>)
    ensures forall x :: x in Present(list, items) <==> x in items && OnList(list, x)
    ensures forall x :: x in Absent(list, items) <==> x in items && !OnList(list, x)
  {
    if items != [] {
      var init := items[..|items| - 1];
      PresentAbsentMembers(list, init);
      assert items == init + [items[|items| - 1]];
    }
  }

  /** The first entry that matches the item, by its stored name. */
  function FirstMatch(list: seq<string>, item: string): (r: Option<string>)
    ensures r.None? <==> !OnList(list, item)
    ensures r.Some? ==> r.value in list && Matches(r.value, item)
  {
    if list == [] then None
    else if Matches(list[0], item) then Some(list[0])
    else
      assert forall i :: 1 <= i < |list| ==> list[i] == list[1..][i - 1];
      FirstMatch(list[1..], item)
  }

  /** The position of the first entry with exactly that name. */
  function IndexOf(list: seq<string>, name: string): (k: nat)
    requires name in list
    ensures k < |list| && list[k] == name && name !in list[..k]
  {
    if list[0] == name then 0
    else
      assert list == [list[0]] + list[1..];
      var k' := IndexOf(list[1..], name);
      assert list[..k' + 1] == [list[0]] + list[1..][..k'];
      k' + 1
  }

  /** `recent_item(name)`: the first entry with exactly that name leaves the purchase list. */
  function RemoveFirst(list: seq<string>, name: string): (r: seq<string>)
    ensures multiset(r) == multiset(list) - multiset{name}
    ensures name !in list ==> r == list
  {
    if name !in list then list
    else
      var k := IndexOf(list, name);
      assert list == list[..k] + [name] + list[k + 1..];
      list[..k] + list[k + 1..]
  }


  /** The purchase list after `_deleteItemInt`: for each item, its first match in the snapshot is removed. */
  function DeleteMatches(list: seq<string>, snapshot: seq<string>, items: seq<string>): seq<string>
  {
    if items == [] then list
    else
      var current := DeleteMatches(list, snapshot, items[..|items| - 1]);
      match FirstMatch(snapshot, items[|items| - 1])
      case Some(entry) => RemoveFirst(current, entry)
      case None => current
  }

  // ------------------------------------------------------- the Bring! list

  /** The Bring! purchase list, as the names of its entries in order. */
  class ShoppingList {
    var purchase: seq<string>

    constructor(purchase: seq<string>)
      ensures this.purchase == purchase
    {
      this.purchase := purchase;
    }

    /** `purchase_item(name, "")`: the item is appended. */
    method PurchaseItem(name: string)
      modifies this
      ensures purchase == old(purchase) + [name]
    {
      purchase := purchase + [name];
    }

    /** `recent_item(name)`: the entry leaves the purchase list. */
    method RecentItem(name: string)
      modifies this
      ensures purchase == RemoveFirst(old(purchase), name)
    {
      purchase := RemoveFirst(purchase, name);
    }
  }

  // ------------------------------------------------------------ the module

  class BringShoppingList {
    const bring: ShoppingList

    constructor(bring: ShoppingList)
      ensures this.bring == bring
    {
      this.bring := bring;
    }

    /** `_addItemInt`: add the items not yet on the list; report (added, exist). */
    method AddItemInt(items: seq<string>) returns (added: seq<string>, exist: seq<string>)
      modifies bring
      ensures added == Absent(old(bring.purchase), items) && exist == Present(old(bring.purchase), items)
      ensures bring.purchase == old(bring.purchase) + added
    {
      var bringItems := bring.purchase;
      added, exist := [], [];
      var i := 0;
      while i < |items|
        invariant 0 <= i <= |items|
        invariant added == Absent(bringItems, items[..i]) && exist == Present(bringItems, items[..i])
        invariant bring.purchase == bringItems + added
      {
        assert items[..i + 1][..i] == items[..i];
        if !OnList(bringItems, items[i]) {
          bring.PurchaseItem(items[i]);
          added := added + [items[i]];
        } else {
          exist := exist + [items[i]];
        }
        i := i + 1;
      }
      assert items[..i] == items;
    }

    /** `_deleteItemInt`: remove the first match of each item; report (removed, not on the list). */
    method DeleteItemInt(items: seq<string>) returns (removed: seq<string>, exist: seq<string>)
      modifies bring
      ensures removed == Present(old(bring.purchase), items) && exist == Absent(old(bring.purchase), items)
      ensures bring.purchase == DeleteMatches(old(bring.purchase), old(bring.purchase), items)
    {
      var bringItems := bring.purchase;
      removed, exist := [], [];
      var i := 0;
      while i < |items|
        invariant 0 <= i <= |items|
        invariant removed == Present(bringItems, items[..i]) && exist == Absent(bringItems, items[..i])
        invariant bring.purchase == DeleteMatches(bringItems, bringItems, items[..i])
      {
        assert items[..i + 1][..i] == items[..i];
        var item := items[i];
        var entry := FindMatch(bringItems, item);
        if entry.Some? {
          bring.RecentItem(entry.value);
          removed := removed + [item];
        } else {
          exist := exist + [item];
        }
        assert Present(bringItems, items[..i + 1]) == Present(bringItems, items[..i]) + (if OnList(bringItems, item) then [item] else []);
        assert Absent(bringItems, items[..i + 1]) == Absent(bringItems, items[..i]) + (if OnList(bringItems, item) then [] else [item]);
        i := i + 1;
      }
      assert items[..i] == items;
    }

    /** The inner search of `_deleteItemInt`: the first entry of the snapshot that matches the item. */
    method FindMatch(bringItems: seq<string>, item: string) returns (entry: Option<string>)
      ensures entry == FirstMatch(bringItems, item)
    {
      var j := 0;
      while j < |bringItems|
        invariant 0 <= j <= |bringItems|
        invariant FirstMatch(bringItems[j..], item) == FirstMatch(bringItems, item)
      {
        assert bringItems[j..] == [bringItems[j]] + bringItems[j + 1..];
        if Matches(bringItems[j], item) {
          return Some(bringItems[j]);
        }
        j := j + 1;
      }
      assert bringItems[j..] == [];
      return None;
    }

    /** `_checkListInt`: split the items into those on the list and the missing ones. */
    method CheckListInt(items: seq<string>) returns (found: seq<string>, missing: seq<string>)
      ensures found == Present(bring.purchase, items) && missing == Absent(bring.purchase, items)
    {
      var bringItems := bring.purchase;
      found, missing := [], [];
      var i := 0;
      while i < |items|
        invariant 0 <= i <= |items|
        invariant found == Present(bringItems, items[..i]) && missing == Absent(bringItems, items[..i])
      {
        assert items[..i + 1][..i] == items[..i];
        if OnList(bringItems, items[i]) {
          found := found + [items[i]];
        } else {
          missing := missing + [items[i]];
        }
        i := i + 1;
      }
      assert items[..i] == items;
    }

    /** `_deleteCompleteList`: every entry of the snapshot is removed in turn, which empties the list. */
    method DeleteCompleteList()
      modifies bring
      ensures bring.purchase == []
    {
      var items := bring.purchase;
      var i := 0;
      while i < |items|
        invariant 0 <= i <= |items|
        invariant bring.purchase == items[i..]
      {
        assert items[i..] == [items[i]] + items[i + 1..];
        bring.RecentItem(items[i]);
        i := i + 1;
      }
    }
 
    /** The answer of an item intent whose items could not be read or were empty. */
    static function ItemsMissing(items: Result<ShopItems, string>): (r: Reply)
      requires items.Err? || (items.value.items == [] && items.value.reprompt.Some?)
      ensures items.Err? ==> r.Crashed?
      ensures items.Ok? ==> r == Reprompt(items.value.reprompt.value)
    {
      if items.Err? then Crashed(items.error) else Reprompt(items.value.reprompt.value)
    }

    /** `addItemIntent`: add the requested items and say which were added and which were there already. */
    method AddItemIntent(intent: string, slots: map<string, seq<string>>) returns (reply: Reply)
      modifies bring
      ensures var items := GetShopItems("add", intent, slots);
        if items.Err? || items.value.items == [] then
          reply == ItemsMissing(items) && bring.purchase == old(bring.purchase)
        else
          var added := Absent(old(bring.purchase), items.value.items);
          reply == Say(CombineLists("add", added, Present(old(bring.purchase), items.value.items)))
          && bring.purchase == old(bring.purchase) + added
    {
      var items := GetShopItems("add", intent, slots);
      if items.Err? || items.value.items == [] {
        return ItemsMissing(items);
      }
      var added, exist := AddItemInt(items.value.items);
      reply := Say(CombineLists("add", added, exist));
    }

    /** `delItemIntent`: remove the requested items and say which were removed and which were not listed. */
    method DelItemIntent(intent: string, slots: map<string, seq<string>>) returns (reply: Reply)
      modifies bring
      ensures var items := GetShopItems("rem", intent, slots);
        if items.Err? || items.value.items == [] then
          reply == ItemsMissing(items) && bring.purchase == old(bring.purchase)
        else
          reply == Say(CombineLists("rem", Present(old(bring.purchase), items.value.items), Absent(old(bring.purchase), items.value.items)))
          && bring.purchase == DeleteMatches(old(bring.purchase), old(bring.purchase), items.value.items)
    {
      var items := GetShopItems("rem", intent, slots);
      if items.Err? || items.value.items == [] {
        return ItemsMissing(items);
      }
      var removed, exist := DeleteItemInt(items.value.items);
      reply := Say(CombineLists("rem", removed, exist));
    }

    /** `checkListIntent`: say which requested items are on the list and which are missing. */
    method CheckListIntent(intent: string, slots: map<string, seq<string>>) returns (reply: Reply)
      ensures var items := GetShopItems("chk", intent, slots);
        if items.Err? || items.value.items == [] then reply == ItemsMissing(items)
        else reply == Say(CombineLists("chk", Present(bring.purchase, items.value.items), Absent(bring.purchase, items.value.items)))
    {
      var items := GetShopItems("chk", intent, slots);
      if items.Err? || items.value.items == [] {
        return ItemsMissing(items);
      }
      var found, missing := CheckListInt(items.value.items);
      reply := Say(CombineLists("chk", found, missing));
    }

    /** `readListIntent`: read every entry of the list, in list order. */
    method ReadListIntent() returns (reply: Reply)
      ensures reply.Say? && reply.speech == GetTextForList("read", bring.purchase)
    {
      reply := Say(GetTextForList("read", bring.purchase));
    }

    /** `delListIntent`: ask for confirmation, in the dialog state the confirmation is mapped from. */
    method DelListIntent() returns (reply: Reply)
      ensures reply == Reprompt(Ask("chk_del_all", [ConfirmDeleteIntent], Some("confDelList"), None))
    {
      reply := Reprompt(Ask("chk_del_all", [ConfirmDeleteIntent], Some("confDelList"), None));
    }

    /** `confDelIntent`: on yes, empty the list; otherwise keep it. */
    method ConfDelIntent(yes: bool) returns (reply: Reply)
      modifies bring
      ensures yes ==> bring.purchase == [] && reply == Say(Talk("del_all", []))
      ensures !yes ==> bring.purchase == old(bring.purchase) && reply == Say(Talk("nodel_all", []))
    {
      if yes {
        DeleteCompleteList();
        reply := Say(Talk("del_all", []));
      } else {
        reply := Say(Talk("nodel_all", []));
      }
    }
  }

  // ---------------------------------------------------- what the calls mean

  /** After adding, every requested item is on the list. */
  lemma AddedAllOnList(list: seq<string>, items: seq<string>, x: string)
    requires x in items
    ensures OnList(list + Absent(list, items), x)
  {
    PresentAbsentSplit(list, items);
    if OnList(list, x) {
      var i :| 0 <= i < |list| && Matches(list[i], x);
      assert (list + Absent(list, items))[i] == list[i];
    } else {
      var k :| 0 <= k < |Absent(list, items)| && Absent(list, items)[k] == x;
      assert (list + Absent(list, items))[|list| + k] == x;
    }
  }

  /** Adding checks against the snapshot: two spellings of a new item asked for together are both added. */
  lemma SnapshotAddsBothSpellings()
    ensures Absent(["Bread"], ["Milk", "milk"]) == ["Milk", "milk"]
  {
    assert !OnList(["Bread"], "Milk") by {
      assert Lower("Bread")[0] == 'b' && Lower("Milk")[0] == 'm';
    }
    assert !OnList(["Bread"], "milk") by {
      assert Lower("Bread")[0] == 'b' && Lower("milk")[0] == 'm';
    }
    assert ["Milk", "milk"][..1] == ["Milk"];
  }

  /** Deleting removes at most one entry per requested item, and only entries of the list. */
  lemma {:induction false} DeleteRemovesAtMostOnePerItem(list: seq<string>, snapshot: seq<string>, items: seq<string>)
    ensures multiset(DeleteMatches(list, snapshot, items)) <= multiset(list)
    ensures |list| - |items| <= |DeleteMatches(list, snapshot, items)| <= |list|
  {
    if items != [] {
      DeleteRemovesAtMostOnePerItem(list, snapshot, items[..|items| - 1]);
      var current := DeleteMatches(list, snapshot, items[..|items| - 1]);
      match FirstMatch(snapshot, items[|items| - 1])
      case Some(entry) =>
        assert |multiset(RemoveFirst(current, entry))| == |RemoveFirst(current, entry)|;
        assert |multiset(current)| == |current|;
      case None =>
    }
  }

  /** No two entries of the list match each other. */
  predicate CaseUnique(list: seq<string>)
  {
    forall i, j :: 0 <= i < j < |list| ==> !Matches(list[i], list[j])
  }

  lemma RemoveFirstKeeps(list: seq<string>, name: string, other: string)
    requires other in list && other != name
    ensures other in RemoveFirst(list, name)
  {
    if name in list {
      var k := IndexOf(list, name);
      var p :| 0 <= p < |list| && list[p] == other;
      if p < k {
        assert list[..k][p] == other;
      } else {
        assert list[k + 1..][p - k - 1] == other;
      }
    }
  }


  /** An entry matching the item in a sub-multiset is an entry of the larger list too. */
  lemma OnListSub(small: seq<string>, large: seq<string>, item: string)
    requires multiset(small) <= multiset(large)
    ensures OnList(small, item) ==> OnList(large, item)
  {
    if OnList(small, item) {
      var i :| 0 <= i < |small| && Matches(small[i], item);
      assert small[i] in multiset(small);
      assert small[i] in large;
      var k :| 0 <= k < |large| && large[k] == small[i];
    }
  }


  /** Cutting one position out of a list keeps it free of matching pairs. */
  lemma CutKeepsUnique(list: seq<string>, k: nat)
    requires k < |list| && CaseUnique(list)
    ensures CaseUnique(list[..k] + list[k + 1..])
  {
    var r := list[..k] + list[k + 1..];
    forall i, j | 0 <= i < j < |r|
      ensures !Matches(r[i], r[j])
    {
      var i' := if i < k then i else i + 1;
      var j' := if j < k then j else j + 1;
      assert r[i] == list[i'] && r[j] == list[j'] && i' < j';
    }
  }

  /** Cutting out the one entry that matches an item leaves none that does. */
  lemma CutRemovesMatch(list: seq<string>, k: nat, item: string)
    requires k < |list| && CaseUnique(list) && Matches(list[k], item)
    ensures !OnList(list[..k] + list[k + 1..], item)
  {
    var r := list[..k] + list[k + 1..];
    forall i | 0 <= i < |r|
      ensures !Matches(r[i], item)
    {
      if i < k {
        assert r[i] == list[i] && !Matches(list[i], list[k]);
      } else {
        assert r[i] == list[i + 1] && !Matches(list[k], list[i + 1]);
      }
    }
  }

  /** In a list without two matching entries, removing the match of an item leaves none. */
  lemma RemoveOnlyMatch(list: seq<string>, entry: string, item: string)
    requires CaseUnique(list) && entry in list && Matches(entry, item)
    ensures !OnList(RemoveFirst(list, entry), item) && CaseUnique(RemoveFirst(list, entry))
  {
    var k := IndexOf(list, entry);
    CutKeepsUnique(list, k);
    CutRemovesMatch(list, k, item);
  }

  /** Items that do not match one another. */
  predicate ItemsDistinct(items: seq<string>)
  {
    forall i, j :: 0 <= i < j < |items| ==> !Matches(items[i], items[j])
  }

  /** None of the items matches an entry of the list. */
  predicate NoneOnList(list: seq<string>, items: seq<string>)
  {
    forall x :: x in items ==> !OnList(list, x)
  }

  /** Every entry of `list` that matches none of the items is still in `r`. */
  predicate KeepsUnmatched(list: seq<string>, r: seq<string>, items: seq<string>)
  {
    forall e :: e in list && (forall x :: x in items ==> !Matches(e, x)) ==> e in r
  }

  /**
   * When no two entries of the list match each other and no two requested
   * items do, deleting leaves none of the requested items on the list and
   * every other entry in place.
   */
  lemma {:induction false} DeleteClearsItems(list: seq<string>, items: seq<string>)
    requires CaseUnique(list) && ItemsDistinct(items)
    ensures NoneOnList(DeleteMatches(list, list, items), items)
    ensures CaseUnique(DeleteMatches(list, list, items))
    ensures KeepsUnmatched(list, DeleteMatches(list, list, items), items)
  {
    if items != [] {
      var init := items[..|items| - 1];
      var last := items[|items| - 1];
      assert items == init + [last];
      assert ItemsDistinct(init) by {
        forall i, j | 0 <= i < j < |init|
          ensures !Matches(init[i], init[j])
        {
          assert init[i] == items[i] && init[j] == items[j];
        }
      }
      assert forall x :: x in init ==> !Matches(x, last) by {
        forall x | x in init
          ensures !Matches(x, last)
        {
          var k :| 0 <= k < |init| && init[k] == x;
          assert items[k] == x;
        }
      }
      DeleteClearsItems(list, init);
      var current := DeleteMatches(list, list, init);
      match FirstMatch(list, last)
      case None =>
        DeleteRemovesAtMostOnePerItem(list, list, init);
        OnListSub(current, list, last);
        ClearsExtend(list, current, init, last);
      case Some(entry) =>
        ClearsWhenFound(list, current, init, last, entry);
        ClearsExtend(list, RemoveFirst(current, entry), init, last);
    }
  }

  /** Clearing the earlier items and then the last one clears them all. */
  lemma ClearsExtend(list: seq<string>, r: seq<string>, init: seq<string>, last: string)
    requires NoneOnList(r, init) && !OnList(r, last)
    requires KeepsUnmatched(list, r, init) || (forall e :: e in list && !Matches(e, last) && (forall x :: x in init ==> !Matches(e, x)) ==> e in r)
    ensures NoneOnList(r, init + [last])
    ensures KeepsUnmatched(list, r, init + [last])
  {
    forall e | e in list && (forall x :: x in init + [last] ==> !Matches(e, x))
      ensures e in r
    {
      assert last in init + [last];
      forall x | x in init
        ensures !Matches(e, x)
      {
        assert x in init + [last];
      }
    }
  }

  /** The step that removes the one entry matching the last item. */
  lemma ClearsWhenFound(list: seq<string>, current: seq<string>, init: seq<string>, last: string, entry: string)
    requires CaseUnique(current) && NoneOnList(current, init) && KeepsUnmatched(list, current, init)
    requires forall x :: x in init ==> !Matches(x, last)
    requires entry in list && Matches(entry, last)
    ensures NoneOnList(RemoveFirst(current, entry), init) && !OnList(RemoveFirst(current, entry), last)
    ensures CaseUnique(RemoveFirst(current, entry))
    ensures forall e :: e in list && !Matches(e, last) && (forall x :: x in init ==> !Matches(e, x)) ==> e in RemoveFirst(current, entry)
  {
    assert entry in current by {
      forall x | x in init
        ensures !Matches(entry, x)
      {
        assert !Matches(x, last);
      }
    }
    RemoveOnlyMatch(current, entry, last);
    var r := RemoveFirst(current, entry);
    forall x | x in init
      ensures !OnList(r, x)
    {
      OnListSub(r, current, x);
    }
    forall e | e in list && !Matches(e, last) && (forall x :: x in init ==> !Matches(e, x))
      ensures e in r
    {
      assert e in current;
      RemoveFirstKeeps(current, entry, e);
    }
  }

  // ------------------------------------------------------- _getShopItems

  /** The requested items, and the reprompt `continueDialog` makes when there are none. */
  datatype ShopItems = ShopItems(items: seq<string>, reprompt: Option<Action>)

  /** The shopItem values other than "unknownword", in order. */
  function KnownWords(values: seq<string>): (r: seq<string>)
    ensures forall x :: x in r <==> x in values && x != "unknownword"
    ensures multiset(r) == multiset(values)["unknownword" := 0]
    ensures |r| <= |values|
  {
    if values == [] then []
    else
      var last := values[|values| - 1];
      assert values == values[..|values| - 1] + [last];
      KnownWords(values[..|values| - 1]) + (if last != "unknownword" then [last] else [])
  }

  /** A single value is kept exactly when it is a known word. */
  lemma KnownWordsOne(x: string)
    ensures KnownWords([x]) == if x != "unknownword" then [x] else []
  {
    assert [x][..0] == [];
  }

  /** The known words keep the order the values were given in. */
  lemma {:induction false} KnownWordsAppend(a: seq<string>, b: seq<string>)
    ensures KnownWords(a + b) == KnownWords(a) + KnownWords(b)
    decreases |b|
  {
    if b == [] {
      assert a + b == a;
    } else {
      var init := b[..|b| - 1];
      var last := b[|b| - 1];
      assert (a + b)[..|a + b| - 1] == a + init;
      assert (a + b)[|a + b| - 1] == last;
      KnownWordsAppend(a, init);
    }
  }

  /**
   * `_getShopItems`: for a spelled word, the letters joined and capitalised
   * (a session without a Letters slot raises KeyError); otherwise the known
   * shopItem values, with a reprompt for `<answer>_what` when there are none.
   * `slots` maps a slot name to the values of its slot objects.
   */
  function GetShopItems(answer: string, intent: string, slots: map<string, seq<string>>): (r: Result<ShopItems, string>)
    ensures r.Err? <==> intent == SpellWordIntent && "Letters" !in slots
    ensures r.Ok? && intent == SpellWordIntent ==>
              r.value.items == [Capitalize(Join(slots["Letters"], ""))] && r.value.reprompt.None?
    ensures r.Ok? && intent != SpellWordIntent ==>
              var values := if "shopItem" in slots then slots["shopItem"] else [];
              (forall x :: x in r.value.items <==> x in values && x != "unknownword")
              && multiset(r.value.items) == multiset(values)["unknownword" := 0]
    ensures r.Ok? ==> (r.value.reprompt.Some? <==> r.value.items == [])
    ensures r.Ok? && r.value.reprompt.Some? ==>
              r.value.reprompt.value == Ask(answer + "_what", [AnswerShopIntent, SpellWordIntent], Some(intent), None)
  {
    if intent == SpellWordIntent then
      if "Letters" in slots then Ok(ShopItems([Capitalize(Join(slots["Letters"], ""))], None))
      else Err("KeyError")
    else
      var items := KnownWords(if "shopItem" in slots then slots["shopItem"] else []);
      if items == [] then Ok(ShopItems([], Some(Ask(answer + "_what", [AnswerShopIntent, SpellWordIntent], Some(intent), None))))
      else Ok(ShopItems(items, None))
  }

  /** A spelled word becomes one item whose length is the letters' total. */
  lemma SpelledWordLength(answer: string, letters: seq<string>)
    requires |letters| >= 1
    ensures var r := GetShopItems(answer, SpellWordIntent, map["Letters" := letters]);
      r.Ok? && |r.value.items[0]| == SumLengths(letters)
  {
    JoinLength(letters, "");
  }

  // --------------------------------------------------------- spoken answers

  /** What the module asks `randomTalk` to say, with the strings it formats in. */
  datatype Speech =
    | Silent                                 // the empty string
    | Words(text: string)                    // a string given as an argument
    | Talk(key: string, args: seq<Speech>)   // randomTalk(key, args)

  /** `_getTextForList`: the none, one or multi form, the multi form listing the items through gen_list. */
  function GetTextForList(pref: string, items: seq<string>): (r: Speech)
    ensures r.Talk?
    ensures r.key == pref + (if items == [] then "_none" else if |items| == 1 then "_one" else "_multi")
  {
    if items == [] then Talk(pref + "_none", [])
    else if |items| == 1 then Talk(pref + "_one", [Words(items[0])])
    else
      var value := Talk("gen_list", [Words(Join(items[..|items| - 1], ", ")), Words(items[|items| - 1])]);
      Talk(pref + "_multi", [value])
  }

  /** The first comma of a string, or its length when there is none. */
  function CommaAt(s: string): (r: nat)
    ensures r <= |s| && (r < |s| ==> s[r] == ',')
    ensures forall j :: 0 <= j < r ==> s[j] != ','
  {
    if s == [] || s[0] == ',' then 0 else 1 + CommaAt(s[1..])
  }

  /** Split a ", "-joined list back into its parts. */
  function SplitList(s: string): (r: seq<string>)
    decreases |s|
  {
    var i := CommaAt(s);
    if i == |s| then [s] else [s[..i]] + SplitList(s[if i + 2 <= |s| then i + 2 else |s|..])
  }

  /** The items a list answer names, read back from the speech. */
  function ListedItems(r: Speech): seq<string>
  {
    if r.Talk? && |r.args| == 1 && r.args[0].Words? then [r.args[0].text]
    else if r.Talk? && |r.args| == 1 && r.args[0].Talk? && |r.args[0].args| == 2
        && r.args[0].args[0].Words? && r.args[0].args[1].Words?
    then SplitList(r.args[0].args[0].text) + [r.args[0].args[1].text]
    else []
  }

  lemma {:induction false} SplitJoin(parts: seq<string>)
    requires |parts| >= 1 && forall k :: 0 <= k < |parts| ==> ',' !in parts[k]
    ensures SplitList(Join(parts, ", ")) == parts
  {
    if |parts| == 1 {
      assert CommaAt(parts[0]) == |parts[0]|;
    } else {
      var s := Join(parts, ", ");
      var rest := Join(parts[1..], ", ");
      assert s == parts[0] + ", " + rest;
      assert s[|parts[0]|] == ',';
      assert CommaAt(s) == |parts[0]|;
      assert s[..|parts[0]|] == parts[0];
      assert s[|parts[0]| + 2..] == rest;
      SplitJoin(parts[1..]);
    }
  }

  /** Every item of a list answer can be read back from it, in order, when no item holds a comma. */
  lemma ListedRoundTrip(pref: string, items: seq<string>)
    requires forall k :: 0 <= k < |items| ==> ',' !in items[k]
    ensures ListedItems(GetTextForList(pref, items)) == items
  {
    if |items| > 1 {
      var init := items[..|items| - 1];
      SplitJoin(init);
      assert init + [items[|items| - 1]] == items;
    }
  }

  /** Python's `a or b` on strings. */
  function Or(a: Speech, b: Speech): Speech
  {
    if a != Silent then a else b
  }

  /**
   * `_combineLists`: both answers joined by state_con when both lists have
   * items, the answer for the one that has items otherwise, else nothing.
   */
  function CombineLists(answer: string, first: seq<string>, second: seq<string>): (r: Speech)
    ensures first != [] && second != [] ==>
      r == Talk("state_con", [GetTextForList(answer, first), GetTextForList(answer + "_f", second)])
    ensures first != [] && second == [] ==> r == GetTextForList(answer, first)
    ensures first == [] && second != [] ==> r == GetTextForList(answer + "_f", second)
    ensures r == Silent <==> first == [] && second == []
  {
    var firstAnswer := if first != [] then GetTextForList(answer, first) else Silent;
    var secondAnswer := if second != [] then GetTextForList(answer + "_f", second) else Silent;
    var combinedAnswer := if first != [] && second != [] then Talk("state_con", [firstAnswer, secondAnswer]) else Silent;
    Or(combinedAnswer, Or(firstAnswer, secondAnswer))
  }
}
