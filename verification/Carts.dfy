/** Per-merchant carts kept in local storage under `cart_<merchantId>`. */
module Carts {
  import opened Basics

  datatype ItemKey = ItemKey(productId: int, variantId: Option<int>)

  /** `details` stands for name, price and the other fields no operation looks at. */
  datatype Product = Product(key: ItemKey, details: string)

  datatype CartItem = CartItem(product: Product, quantity: int)

  function KeyOf(item: CartItem): ItemKey {
    item.product.key
  }

  /** What a storage key holds: the JSON of a cart, or anything that does not parse as one. */
  datatype Stored = Cart(items: seq<CartItem>) | NotACart(text: string)

  datatype Entry = Entry(key: string, value: Stored)

  function EntryKey(entry: Entry): string {
    entry.key
  }

  const STORAGE_PREFIX := "cart_"

  function StorageKey(merchantId: string): string {
    STORAGE_PREFIX + merchantId
  }

  lemma StorageKeysDiffer(a: string, b: string)
    ensures StorageKey(a) == StorageKey(b) <==> a == b
  {
    assert StorageKey(a)[5..] == a && StorageKey(b)[5..] == b;
  }

  // ------------------------------------------------------- storage as a value

  function CartOf(value: Stored): seq<CartItem> {
    if value.Cart? then value.items else []
  }

  function GetCartIn(entries: seq<Entry>, merchantId: string): seq<CartItem> {
    match Find(entries, EntryKey, StorageKey(merchantId))
    case Some(entry) => CartOf(entry.value)
    case None => []
  }

  function SetItem(entries: seq<Entry>, key: string, value: Stored): seq<Entry> {
    var i := FindIndex(entries, EntryKey, key);
    if i < |entries| then entries[i := Entry(key, value)] else entries + [Entry(key, value)]
  }

  function RemoveItem(entries: seq<Entry>, key: string): seq<Entry> {
    var i := FindIndex(entries, EntryKey, key);
    if i < |entries| then entries[..i] + entries[i + 1..] else entries
  }

  function SetCartIn(entries: seq<Entry>, merchantId: string, items: seq<CartItem>): seq<Entry> {
    if |items| == 0 then RemoveItem(entries, StorageKey(merchantId))
    else SetItem(entries, StorageKey(merchantId), Cart(items))
  }

  // ------------------------------------------------------- cart edits

  /** `{ ...next[idx], quantity: next[idx].quantity + qty }`, or a new last row. */
  function Added(items: seq<CartItem>, product: Product, quantity: int): seq<CartItem> {
    var i := FindIndex(items, KeyOf, product.key);
    if i < |items| then items[i := items[i].(quantity := items[i].quantity + quantity)]
    else items + [CartItem(product, quantity)]
  }

  function Max(a: int, b: int): int {
    if a < b then b else a
  }

  /** `existing.map(...).filter(c => c.quantity > 0)`. */
  function Updated(items: seq<CartItem>, key: ItemKey, quantity: int): seq<CartItem> {
    if items == [] then []
    else
      var changed := if KeyOf(items[0]) == key then items[0].(quantity := Max(0, quantity)) else items[0];
      (if changed.quantity > 0 then [changed] else []) + Updated(items[1..], key, quantity)
  }

  /** `item.quantity ?? 1`. */
  function Wanted(quantity: Option<int>): int {
    if quantity.Some? then quantity.value else 1
  }

  datatype Edit =
    | Add(merchantId: string, product: Product, quantity: Option<int>)
    | Update(merchantId: string, key: ItemKey, newQuantity: int)
    | Remove(merchantId: string, key: ItemKey)

  function CartAfter(items: seq<CartItem>, edit: Edit): seq<CartItem> {
    match edit
    case Add(_, product, quantity) => Added(items, product, Wanted(quantity))
    case Update(_, key, quantity) => Updated(items, key, quantity)
    case Remove(_, key) => Updated(items, key, 0)
  }

  function After(entries: seq<Entry>, edit: Edit): seq<Entry> {
    SetCartIn(entries, edit.merchantId, CartAfter(GetCartIn(entries, edit.merchantId), edit))
  }

  // ------------------------------------------------------- counts

  function SumOf<T>(s: seq<T>, weight: T -> int): int {
    if s == [] then 0 else weight(s[0]) + SumOf(s[1..], weight)
  }

  lemma SumOfConcat<T>(a: seq<T>, b: seq<T>, weight: T -> int)
    ensures SumOf(a + b, weight) == SumOf(a, weight) + SumOf(b, weight)
  {
    if a == [] {
      assert a + b == b;
    } else {
      assert (a + b)[1..] == a[1..] + b;
      SumOfConcat(a[1..], b, weight);
    }
  }

  lemma SumOfReplaced<T>(s: seq<T>, i: nat, x: T, weight: T -> int)
    requires i < |s|
    ensures SumOf(s[i := x], weight) == SumOf(s, weight) - weight(s[i]) + weight(x)
    ensures SumOf(s[..i] + s[i + 1..], weight) == SumOf(s, weight) - weight(s[i])
    ensures SumOf(s[..i + 1], weight) == SumOf(s[..i], weight) + weight(s[i])
  {
    var before, after := s[..i], s[i + 1..];
    assert s == before + ([s[i]] + after) && s[i := x] == before + ([x] + after);
    assert s[..i + 1] == before + [s[i]];
    SumOfConcat(before, [s[i]] + after, weight);
    SumOfConcat(before, [x] + after, weight);
    SumOfConcat(before, after, weight);
    SumOfConcat(before, [s[i]], weight);
    assert ([s[i]] + after)[1..] == after && ([x] + after)[1..] == after;
  }

  function ItemCount(item: CartItem): int {
    item.quantity
  }

  function Count(items: seq<CartItem>): int {
    SumOf(items, ItemCount)
  }

  /** What one storage entry adds to the badge; the key `cart_` itself names no merchant. */
  function EntryCount(entry: Entry): int {
    if STORAGE_PREFIX < entry.key then Count(CartOf(entry.value)) else 0
  }

  function Total(entries: seq<Entry>): int {
    SumOf(entries, EntryCount)
  }

  // ------------------------------------------------------- the plain form

  datatype Line = Line(merchantId: string, key: ItemKey)

  /** The plain form of all carts: how many of each item of each merchant. */
  type Ledger = map<Line, int>

  /** An update or removal also drops whatever else of that merchant is not positive. */
  function LedgerAfter(ledger: Ledger, edit: Edit): Ledger {
    match edit
    case Add(m, product, quantity) =>
      var line := Line(m, product.key);
      ledger[line := (if line in ledger then ledger[line] else 0) + Wanted(quantity)]
    case Update(m, key, quantity) =>
      var line := Line(m, key);
      Swept(if line in ledger then ledger[line := Max(0, quantity)] else ledger, m)
    case Remove(m, key) => Swept(ledger - {Line(m, key)}, m)
  }

  function Swept(ledger: Ledger, merchantId: string): Ledger {
    map line | line in ledger && (line.merchantId == merchantId ==> ledger[line] > 0) :: ledger[line]
  }

  ghost function Sum(ledger: Ledger): int {
    if ledger == map[] then 0
    else
      var line :| line in ledger;
      ledger[line] + Sum(ledger - {line})
  }

  lemma {:induction false} SumWithout(ledger: Ledger, line: Line)
    requires line in ledger
    ensures Sum(ledger) == ledger[line] + Sum(ledger - {line})
    decreases |ledger|
  {
    var first :| first in ledger && Sum(ledger) == ledger[first] + Sum(ledger - {first});
    if first != line {
      SumWithout(ledger - {first}, line);
      SumWithout(ledger - {line}, first);
      assert ledger - {first} - {line} == ledger - {line} - {first};
    }
  }

  ghost predicate IsPositive(items: seq<CartItem>) {
    forall i :: 0 <= i < |items| ==> items[i].quantity > 0
  }

  ghost predicate Agrees(items: seq<CartItem>, ledger: Ledger, line: Line) {
    match Find(items, KeyOf, line.key)
    case Some(item) => line in ledger && ledger[line] == item.quantity
    case None => line !in ledger
  }

  ghost predicate ListsItemsOnce(entries: seq<Entry>, merchantId: string) {
    DistinctKeys(GetCartIn(entries, merchantId), KeyOf)
  }

  /** No cart lists an item twice, and the carts hold exactly what the ledger says. */
  ghost predicate Refines(entries: seq<Entry>, ledger: Ledger) {
    && DistinctKeys(entries, EntryKey)
    && (forall m :: ListsItemsOnce(entries, m))
    && (forall line: Line :: Agrees(GetCartIn(entries, line.merchantId), ledger, line))
  }

  // ------------------------------------------------------- the total

  ghost function LinesOf(items: seq<CartItem>, merchantId: string): set<Line> {
    set i | 0 <= i < |items| :: Line(merchantId, KeyOf(items[i]))
  }

  lemma DistinctCons(item: CartItem, rest: seq<CartItem>)
    ensures DistinctKeys([item] + rest, KeyOf) <==> DistinctKeys(rest, KeyOf) && !HasKey(rest, KeyOf, KeyOf(item))
  {
    var all := [item] + rest;
    assert forall j :: 0 <= j < |rest| ==> all[j + 1] == rest[j];
    if DistinctKeys(rest, KeyOf) && !HasKey(rest, KeyOf, KeyOf(item)) {
      assert forall j :: 1 <= j < |all| ==> all[j] == rest[j - 1] && KeyOf(all[j]) != KeyOf(all[0]);
    }
    if DistinctKeys(all, KeyOf) {
      forall j | 0 <= j < |rest|
        ensures KeyOf(rest[j]) != KeyOf(item)
      {
        assert rest[j] == all[j + 1] && KeyOf(all[0]) != KeyOf(all[j + 1]);
      }
      forall i, j | 0 <= i < j < |rest|
        ensures KeyOf(rest[i]) != KeyOf(rest[j])
      {
        assert KeyOf(all[i + 1]) != KeyOf(all[j + 1]);
      }
    }
  }

  ghost predicate Holds(ledger: Ledger, merchantId: string, items: seq<CartItem>) {
    forall i :: 0 <= i < |items| ==>
                  Line(merchantId, KeyOf(items[i])) in ledger
                    && ledger[Line(merchantId, KeyOf(items[i]))] == items[i].quantity
  }

  /** The lines of one cart contribute its count. */
  lemma {:induction false} CartSum(items: seq<CartItem>, ledger: Ledger, merchantId: string)
    requires DistinctKeys(items, KeyOf) && Holds(ledger, merchantId, items)
    ensures Sum(ledger) == Count(items) + Sum(ledger - LinesOf(items, merchantId))
  {
    if items == [] {
      assert ledger - LinesOf(items, merchantId) == ledger;
    } else {
      var line, rest := Line(merchantId, KeyOf(items[0])), items[1..];
      assert items == [items[0]] + rest;
      DistinctCons(items[0], rest);
      SumWithout(ledger, line);
      HoldsRest(items[0], rest, ledger, merchantId);
      CartSum(rest, ledger - {line}, merchantId);
      LinesOfCons(items[0], rest, merchantId);
      assert ledger - {line} - LinesOf(rest, merchantId) == ledger - LinesOf(items, merchantId);
    }
  }

  lemma HoldsRest(item: CartItem, rest: seq<CartItem>, ledger: Ledger, merchantId: string)
    requires Holds(ledger, merchantId, [item] + rest) && !HasKey(rest, KeyOf, KeyOf(item))
    ensures Holds(ledger - {Line(merchantId, KeyOf(item))}, merchantId, rest)
  {
    var all := [item] + rest;
    assert forall i :: 0 <= i < |rest| ==> rest[i] == all[i + 1];
  }

  lemma LinesOfCons(item: CartItem, rest: seq<CartItem>, merchantId: string)
    ensures LinesOf([item] + rest, merchantId) == {Line(merchantId, KeyOf(item))} + LinesOf(rest, merchantId)
  {
    var all := [item] + rest;
    assert all[0] == item && forall i :: 0 <= i < |rest| ==> all[i + 1] == rest[i];
    forall line
      ensures line in LinesOf(all, merchantId) <==>
              line == Line(merchantId, KeyOf(item)) || line in LinesOf(rest, merchantId)
    {
      if line in LinesOf(rest, merchantId) {
        var i :| 0 <= i < |rest| && line == Line(merchantId, KeyOf(rest[i]));
        assert all[i + 1] == rest[i];
      }
    }
  }

  lemma FrontCart(entries: seq<Entry>, m: string)
    requires entries != [] && DistinctKeys(entries, EntryKey)
    ensures var last := entries[|entries| - 1];
            && GetCartIn(entries[..|entries| - 1], m) ==
               (if StorageKey(m) == last.key then [] else GetCartIn(entries, m))
            && (StorageKey(m) == last.key ==> GetCartIn(entries, m) == CartOf(last.value))
  {
    var n := |entries| - 1;
    assert entries == entries[..n] + [entries[n]];
    FindIsThatRow(entries, EntryKey, n);
    FindInConcat(entries[..n], [entries[n]], EntryKey, StorageKey(m));
    FindMeans(entries[..n], EntryKey, StorageKey(m));
    if StorageKey(m) == entries[n].key {
      DistinctPush(entries, EntryKey);
    }
  }

  /** A line is agreed on by the cart exactly if it is one of the cart's lines. */
  lemma AgreedLine(items: seq<CartItem>, ledger: Ledger, line: Line)
    requires Agrees(items, ledger, line)
    ensures line in ledger <==> line in LinesOf(items, line.merchantId)
  {
    FindMeans(items, KeyOf, line.key);
    if HasKey(items, KeyOf, line.key) {
      var i :| 0 <= i < |items| && KeyOf(items[i]) == line.key;
      assert Line(line.merchantId, KeyOf(items[i])) == line;
    }
  }

  lemma CartIsHeld(items: seq<CartItem>, ledger: Ledger, merchantId: string)
    requires DistinctKeys(items, KeyOf)
    requires forall line: Line :: line.merchantId == merchantId ==> Agrees(items, ledger, line)
    ensures Holds(ledger, merchantId, items)
  {
    forall i | 0 <= i < |items|
      ensures Line(merchantId, KeyOf(items[i])) in ledger
              && ledger[Line(merchantId, KeyOf(items[i]))] == items[i].quantity
    {
      assert Agrees(items, ledger, Line(merchantId, KeyOf(items[i])));
      FindIsThatRow(items, KeyOf, i);
    }
  }

  /** Taking the last storage entry away takes its cart's lines out of the ledger. */
  lemma FrontRefines(entries: seq<Entry>, ledger: Ledger, merchantId: string)
    requires entries != [] && Refines(entries, ledger) && StorageKey(merchantId) == entries[|entries| - 1].key
    ensures Refines(entries[..|entries| - 1], ledger - LinesOf(GetCartIn(entries, merchantId), merchantId))
    ensures Sum(ledger) ==
            Count(GetCartIn(entries, merchantId)) + Sum(ledger - LinesOf(GetCartIn(entries, merchantId), merchantId))
  {
    var front, items := entries[..|entries| - 1], GetCartIn(entries, merchantId);
    var less := ledger - LinesOf(items, merchantId);
    assert ListsItemsOnce(entries, merchantId);
    forall line: Line | line.merchantId == merchantId
      ensures Agrees(items, ledger, line)
    {
      assert Agrees(GetCartIn(entries, line.merchantId), ledger, line);
    }
    CartIsHeld(items, ledger, merchantId);
    CartSum(items, ledger, merchantId);
    forall m
      ensures ListsItemsOnce(front, m)
    {
      FrontCart(entries, m);
      assert ListsItemsOnce(entries, m);
    }
    forall line: Line
      ensures Agrees(GetCartIn(front, line.merchantId), less, line)
    {
      FrontCart(entries, line.merchantId);
      StorageKeysDiffer(line.merchantId, merchantId);
      assert Agrees(GetCartIn(entries, line.merchantId), ledger, line);
      AgreedLine(GetCartIn(entries, line.merchantId), ledger, line);
    }
  }

  lemma OtherKeyRefines(entries: seq<Entry>, ledger: Ledger)
    requires entries != [] && Refines(entries, ledger) && !(STORAGE_PREFIX <= entries[|entries| - 1].key)
    ensures Refines(entries[..|entries| - 1], ledger)
    ensures forall m :: GetCartIn(entries[..|entries| - 1], m) == GetCartIn(entries, m)
  {
    var front := entries[..|entries| - 1];
    forall m
      ensures GetCartIn(front, m) == GetCartIn(entries, m)
    {
      FrontCart(entries, m);
      assert STORAGE_PREFIX <= StorageKey(m);
    }
    forall line: Line
      ensures Agrees(GetCartIn(front, line.merchantId), ledger, line)
    {
      assert Agrees(GetCartIn(entries, line.merchantId), ledger, line);
    }
    forall m
      ensures ListsItemsOnce(front, m)
    {
      assert ListsItemsOnce(entries, m);
    }
  }

  /** The badge and a cart stored under no merchant make up the sum of the ledger. */
  lemma {:induction false} TotalIsSum(entries: seq<Entry>, ledger: Ledger)
    requires Refines(entries, ledger)
    ensures Total(entries) + Count(GetCartIn(entries, "")) == Sum(ledger)
  {
    if entries == [] {
      forall line: Line
        ensures line !in ledger
      {
        assert Agrees(GetCartIn(entries, line.merchantId), ledger, line);
      }
      assert ledger == map[];
    } else {
      var n := |entries| - 1;
      SumOfReplaced(entries, n, entries[n], EntryCount);
      assert entries[..n + 1] == entries;
      if STORAGE_PREFIX <= entries[n].key {
        var m := entries[n].key[|STORAGE_PREFIX|..];
        assert StorageKey(m) == entries[n].key && (m == "" <==> !(STORAGE_PREFIX < entries[n].key));
        FrontRefines(entries, ledger, m);
        TotalIsSum(entries[..n], ledger - LinesOf(GetCartIn(entries, m), m));
        FrontCart(entries, m);
        FrontCart(entries, "");
        StorageKeysDiffer(m, "");
      } else {
        OtherKeyRefines(entries, ledger);
        TotalIsSum(entries[..n], ledger);
      }
    }
  }

  // ------------------------------------------------------- storage laws

  lemma RemoveKeepsDistinct<T, K>(s: seq<T>, i: nat, key: T -> K)
    requires DistinctKeys(s, key) && i < |s|
    ensures DistinctKeys(s[..i] + s[i + 1..], key)
    ensures !HasKey(s[..i], key, key(s[i])) && !HasKey(s[i + 1..], key, key(s[i]))
  {
  }

  lemma FindFromFirst<T, K>(x: T, after: seq<T>, key: T -> K, k: K)
    ensures Find([x] + after, key, k) == if key(x) == k then Some(x) else Find(after, key, k)
  {
    assert ([x] + after)[1..] == after;
  }

  lemma FindWithout<T, K>(before: seq<T>, x: T, after: seq<T>, key: T -> K, k: K)
    requires !HasKey(before, key, key(x)) && !HasKey(after, key, key(x))
    ensures Find(before + after, key, k) == if k == key(x) then None else Find(before + ([x] + after), key, k)
  {
    FindInConcat(before, after, key, k);
    FindInConcat(before, [x] + after, key, k);
    FindFromFirst(x, after, key, k);
    FindMeans(after, key, k);
  }

  lemma FindAfterRemove<T, K>(s: seq<T>, i: nat, key: T -> K, k: K)
    requires i < |s| && !HasKey(s[..i], key, key(s[i])) && !HasKey(s[i + 1..], key, key(s[i]))
    ensures Find(s[..i] + s[i + 1..], key, k) == if k == key(s[i]) then None else Find(s, key, k)
  {
    assert s == s[..i] + ([s[i]] + s[i + 1..]);
    FindWithout(s[..i], s[i], s[i + 1..], key, k);
  }

  /** A write to one merchant's cart is read back and reaches no other cart. */
  lemma SetCartFinds(entries: seq<Entry>, merchantId: string, items: seq<CartItem>, m: string)
    requires DistinctKeys(entries, EntryKey)
    ensures DistinctKeys(SetCartIn(entries, merchantId, items), EntryKey)
    ensures GetCartIn(SetCartIn(entries, merchantId, items), m) ==
            if m == merchantId then items else GetCartIn(entries, m)
  {
    SetItemIsDistinct(entries, StorageKey(merchantId), Cart(items));
    SetItemFinds(entries, StorageKey(merchantId), Cart(items), StorageKey(m));
    RemoveItemFinds(entries, StorageKey(merchantId), StorageKey(m));
    StorageKeysDiffer(m, merchantId);
  }

  lemma SetCartLaw(entries: seq<Entry>, merchantId: string, items: seq<CartItem>)
    requires DistinctKeys(entries, EntryKey)
    ensures DistinctKeys(SetCartIn(entries, merchantId, items), EntryKey)
    ensures forall m :: GetCartIn(SetCartIn(entries, merchantId, items), m) ==
                        if m == merchantId then items else GetCartIn(entries, m)
  {
    SetCartFinds(entries, merchantId, items, merchantId);
    forall m
      ensures GetCartIn(SetCartIn(entries, merchantId, items), m) ==
              if m == merchantId then items else GetCartIn(entries, m)
    {
      SetCartFinds(entries, merchantId, items, m);
    }
  }

  lemma SetItemFinds(entries: seq<Entry>, key: string, value: Stored, k: string)
    requires DistinctKeys(entries, EntryKey)
    ensures Find(SetItem(entries, key, value), EntryKey, k) ==
            if k == key then Some(Entry(key, value)) else Find(entries, EntryKey, k)
  {
    var i := FindIndex(entries, EntryKey, key);
    if i < |entries| {
      FindAfterUpdate(entries, i, Entry(key, value), EntryKey, k);
    } else {
      FindInConcat(entries, [Entry(key, value)], EntryKey, k);
      FindMeans(entries, EntryKey, k);
    }
  }

  lemma SetItemIsDistinct(entries: seq<Entry>, key: string, value: Stored)
    requires DistinctKeys(entries, EntryKey)
    ensures DistinctKeys(SetItem(entries, key, value), EntryKey)
  {
    if FindIndex(entries, EntryKey, key) == |entries| {
      assert forall j :: 0 <= j < |entries| ==> EntryKey(entries[j]) != key;
    }
  }

  lemma RemoveItemFinds(entries: seq<Entry>, key: string, k: string)
    requires DistinctKeys(entries, EntryKey)
    ensures DistinctKeys(RemoveItem(entries, key), EntryKey)
    ensures Find(RemoveItem(entries, key), EntryKey, k) == if k == key then None else Find(entries, EntryKey, k)
  {
    var i := FindIndex(entries, EntryKey, key);
    if i < |entries| {
      RemoveKeepsDistinct(entries, i, EntryKey);
      FindAfterRemove(entries, i, EntryKey, k);
    } else {
      FindMeans(entries, EntryKey, k);
    }
  }

  // ------------------------------------------------------- cart laws

  lemma AddedIsDistinct(items: seq<CartItem>, product: Product, quantity: int)
    requires DistinctKeys(items, KeyOf)
    ensures DistinctKeys(Added(items, product, quantity), KeyOf)
    ensures quantity > 0 && IsPositive(items) ==> IsPositive(Added(items, product, quantity))
  {
    if FindIndex(items, KeyOf, product.key) == |items| {
      assert forall j :: 0 <= j < |items| ==> KeyOf(items[j]) != product.key;
    }
  }

  lemma AddedFinds(items: seq<CartItem>, product: Product, quantity: int, k: ItemKey)
    requires DistinctKeys(items, KeyOf)
    ensures Find(Added(items, product, quantity), KeyOf, k) ==
            if k != product.key then Find(items, KeyOf, k)
            else match Find(items, KeyOf, k)
              case Some(item) => Some(item.(quantity := item.quantity + quantity))
              case None => Some(CartItem(product, quantity))
  {
    var i := FindIndex(items, KeyOf, product.key);
    if i < |items| {
      FindAfterUpdate(items, i, items[i].(quantity := items[i].quantity + quantity), KeyOf, k);
    } else {
      FindInConcat(items, [CartItem(product, quantity)], KeyOf, k);
      FindMeans(items, KeyOf, k);
    }
  }

  lemma {:induction false} UpdatedFinds(items: seq<CartItem>, key: ItemKey, quantity: int, k: ItemKey)
    requires DistinctKeys(items, KeyOf)
    ensures Find(Updated(items, key, quantity), KeyOf, k) ==
            match Find(items, KeyOf, k)
            case None => None
            case Some(item) =>
              var changed := if k == key then item.(quantity := Max(0, quantity)) else item;
              if changed.quantity > 0 then Some(changed) else None
  {
    if items != [] {
      var rest := Updated(items[1..], key, quantity);
      assert items == [items[0]] + items[1..];
      DistinctCons(items[0], items[1..]);
      UpdatedFinds(items[1..], key, quantity, k);
      FindMeans(items[1..], KeyOf, k);
      assert Updated(items, key, quantity) == rest || Updated(items, key, quantity)[1..] == rest;
    }
  }

  lemma {:induction false} UpdatedIsDistinct(items: seq<CartItem>, key: ItemKey, quantity: int)
    requires DistinctKeys(items, KeyOf)
    ensures DistinctKeys(Updated(items, key, quantity), KeyOf)
    ensures IsPositive(Updated(items, key, quantity))
  {
    if items != [] {
      var rest := Updated(items[1..], key, quantity);
      var first := KeyOf(items[0]);
      assert items == [items[0]] + items[1..];
      DistinctCons(items[0], items[1..]);
      UpdatedIsDistinct(items[1..], key, quantity);
      UpdatedFinds(items[1..], key, quantity, first);
      FindMeans(items[1..], KeyOf, first);
      FindMeans(rest, KeyOf, first);
      DistinctCons(if first == key then items[0].(quantity := Max(0, quantity)) else items[0], rest);
    }
  }

  // ------------------------------------------------------- refinement

  lemma CartStepAgrees(items: seq<CartItem>, ledger: Ledger, edit: Edit, line: Line)
    requires DistinctKeys(items, KeyOf)
    requires line.merchantId == edit.merchantId && Agrees(items, ledger, line)
    ensures Agrees(CartAfter(items, edit), LedgerAfter(ledger, edit), line)
  {
    match edit
    case Add(_, product, quantity) => AddedFinds(items, product, Wanted(quantity), line.key);
    case Update(_, key, quantity) => UpdatedFinds(items, key, quantity, line.key);
    case Remove(_, key) => UpdatedFinds(items, key, 0, line.key);
  }

  lemma LedgerElsewhere(ledger: Ledger, edit: Edit, line: Line)
    requires line.merchantId != edit.merchantId
    ensures line in LedgerAfter(ledger, edit) <==> line in ledger
    ensures line in ledger ==> LedgerAfter(ledger, edit)[line] == ledger[line]
  {
  }

  lemma CartStepIsDistinct(items: seq<CartItem>, edit: Edit)
    requires DistinctKeys(items, KeyOf)
    ensures DistinctKeys(CartAfter(items, edit), KeyOf)
    ensures IsPositive(items) && AddsSome(edit) ==> IsPositive(CartAfter(items, edit))
  {
    match edit
    case Add(_, product, quantity) => AddedIsDistinct(items, product, Wanted(quantity));
    case Update(_, key, quantity) => UpdatedIsDistinct(items, key, quantity);
    case Remove(_, key) => UpdatedIsDistinct(items, key, 0);
  }

  /** One edit of storage is one edit of the ledger, for any quantity asked for. */
  lemma StepRefines(entries: seq<Entry>, ledger: Ledger, edit: Edit)
    requires Refines(entries, ledger)
    ensures Refines(After(entries, edit), LedgerAfter(ledger, edit))
    ensures forall m :: m != edit.merchantId ==> GetCartIn(After(entries, edit), m) == GetCartIn(entries, m)
  {
    var items := GetCartIn(entries, edit.merchantId);
    assert ListsItemsOnce(entries, edit.merchantId);
    CartStepIsDistinct(items, edit);
    SetCartLaw(entries, edit.merchantId, CartAfter(items, edit));
    forall m
      ensures ListsItemsOnce(After(entries, edit), m)
    {
      assert ListsItemsOnce(entries, m);
    }
    forall line: Line
      ensures Agrees(GetCartIn(After(entries, edit), line.merchantId), LedgerAfter(ledger, edit), line)
    {
      assert Agrees(GetCartIn(entries, line.merchantId), ledger, line);
      if line.merchantId == edit.merchantId {
        CartStepAgrees(items, ledger, edit, line);
      } else {
        LedgerElsewhere(ledger, edit, line);
      }
    }
  }

  /** An add without a quantity adds one; an add of a quantity adds that many. */
  lemma PlainAdds(ledger: Ledger, m: string, product: Product, quantity: int)
    ensures var line, before := Line(m, product.key), (l: Line) => if l in ledger then ledger[l] else 0;
            && LedgerAfter(ledger, Add(m, product, None)) == ledger[line := before(line) + 1]
            && LedgerAfter(ledger, Add(m, product, Some(quantity))) == ledger[line := before(line) + quantity]
  {
  }

  /** On positive quantities an update or removal touches its own line and no other. */
  lemma PlainEdits(ledger: Ledger, m: string, key: ItemKey, quantity: int)
    requires forall line :: line in ledger ==> ledger[line] > 0
    ensures LedgerAfter(ledger, Remove(m, key)) == ledger - {Line(m, key)}
    ensures LedgerAfter(ledger, Update(m, key, quantity)) ==
            if Line(m, key) !in ledger then ledger
            else if quantity > 0 then ledger[Line(m, key) := quantity]
            else ledger - {Line(m, key)}
  {
    assert Swept(ledger, m) == ledger;
  }

  function RunOn(entries: seq<Entry>, edits: seq<Edit>): seq<Entry> {
    if edits == [] then entries else After(RunOn(entries, edits[..|edits| - 1]), edits[|edits| - 1])
  }

  function LedgerOf(edits: seq<Edit>): Ledger {
    if edits == [] then map[] else LedgerAfter(LedgerOf(edits[..|edits| - 1]), edits[|edits| - 1])
  }

  /** Over every run of edits from storage without carts, whatever else it holds. */
  lemma {:induction false} RunsRefine(entries: seq<Entry>, edits: seq<Edit>)
    requires DistinctKeys(entries, EntryKey)
    requires forall i :: 0 <= i < |entries| ==> CartOf(entries[i].value) == []
    ensures Refines(RunOn(entries, edits), LedgerOf(edits))
  {
    if edits == [] {
      NoCarts(entries);
    } else {
      RunsRefine(entries, edits[..|edits| - 1]);
      StepRefines(RunOn(entries, edits[..|edits| - 1]), LedgerOf(edits[..|edits| - 1]), edits[|edits| - 1]);
    }
  }

  /** Quantities asked for by an add are at least one. */
  predicate AddsSome(edit: Edit) {
    edit.Add? ==> Wanted(edit.quantity) > 0
  }

  /** If every add asks for at least one, all quantities stay positive. */
  lemma {:induction false} RunsStayPositive(entries: seq<Entry>, edits: seq<Edit>, m: string)
    requires DistinctKeys(entries, EntryKey)
    requires forall i :: 0 <= i < |entries| ==> CartOf(entries[i].value) == []
    requires forall i :: 0 <= i < |edits| ==> AddsSome(edits[i])
    ensures IsPositive(GetCartIn(RunOn(entries, edits), m))
  {
    if edits == [] {
      NoCarts(entries);
    } else {
      var front, last := edits[..|edits| - 1], edits[|edits| - 1];
      RunsRefine(entries, front);
      RunsStayPositive(entries, front, m);
      var before := RunOn(entries, front);
      assert ListsItemsOnce(before, last.merchantId);
      CartStepIsDistinct(GetCartIn(before, last.merchantId), last);
      SetCartLaw(before, last.merchantId, CartAfter(GetCartIn(before, last.merchantId), last));
    }
  }

  lemma {:induction false} NoCarts(entries: seq<Entry>)
    requires forall i :: 0 <= i < |entries| ==> CartOf(entries[i].value) == []
    ensures forall m :: GetCartIn(entries, m) == []
  {
    if entries != [] {
      NoCarts(entries[1..]);
      forall m
        ensures GetCartIn(entries, m) == []
      {
        assert GetCartIn(entries[1..], m) == [];
      }
    }
  }

  // ------------------------------------------------------- the storage itself

  function CountAll(entries: seq<Entry>, ids: seq<string>): int {
    SumOf(ids, (id: string) => Count(GetCartIn(entries, id)))
  }

  lemma CountOneMore(entries: seq<Entry>, ids: seq<string>, id: string)
    ensures CountAll(entries, ids + [id]) == CountAll(entries, ids) + Count(GetCartIn(entries, id))
  {
    SumOfConcat(ids, [id], (id: string) => Count(GetCartIn(entries, id)));
  }

  /** What the next storage key adds to the listing of merchants. */
  lemma NextEntry(entries: seq<Entry>, n: nat)
    requires DistinctKeys(entries, EntryKey) && n < |entries|
    ensures Total(entries[..n + 1]) == Total(entries[..n]) + EntryCount(entries[n])
    ensures forall k :: HasKey(entries[..n + 1], EntryKey, k) <==>
            HasKey(entries[..n], EntryKey, k) || k == entries[n].key
    ensures !HasKey(entries[..n], EntryKey, entries[n].key)
    ensures STORAGE_PREFIX < entries[n].key ==>
              var id := entries[n].key[|STORAGE_PREFIX|..];
              StorageKey(id) == entries[n].key && id != "" && EntryCount(entries[n]) == Count(GetCartIn(entries, id))
  {
    SumOfReplaced(entries, n, entries[n], EntryCount);
    FindIsThatRow(entries, EntryKey, n);
    forall k
      ensures HasKey(entries[..n + 1], EntryKey, k) <==> HasKey(entries[..n], EntryKey, k) || k == entries[n].key
    {
      assert entries[..n + 1] == entries[..n] + [entries[n]];
      HasKeyInConcat(entries[..n], [entries[n]], EntryKey, k);
      assert HasKey([entries[n]], EntryKey, k) <==> k == EntryKey([entries[n]][0]);
    }
    if STORAGE_PREFIX < entries[n].key {
      assert StorageKey(entries[n].key[|STORAGE_PREFIX|..]) == entries[n].key;
    }
  }

  /** The listing after the first `n` storage keys: the merchants met with a cart that is
      not empty, each once, holding what those keys hold. */
  ghost predicate Listed(entries: seq<Entry>, n: nat, ids: seq<string>)
    requires n <= |entries|
  {
    && CountAll(entries, ids) == Total(entries[..n])
    && (forall i, j :: 0 <= i < j < |ids| ==> ids[i] != ids[j])
    && (forall id :: id in ids <==> IsActive(entries, n, id))
  }

  ghost predicate IsActive(entries: seq<Entry>, n: nat, id: string)
    requires n <= |entries|
  {
    id != "" && GetCartIn(entries, id) != [] && HasKey(entries[..n], EntryKey, StorageKey(id))
  }

  lemma PassOver(entries: seq<Entry>, n: nat, ids: seq<string>)
    requires DistinctKeys(entries, EntryKey) && n < |entries| && Listed(entries, n, ids)
    requires STORAGE_PREFIX < entries[n].key ==> GetCartIn(entries, entries[n].key[|STORAGE_PREFIX|..]) == []
    ensures Listed(entries, n + 1, ids)
  {
    NextEntry(entries, n);
    forall id
      ensures IsActive(entries, n + 1, id) <==> IsActive(entries, n, id)
    {
      if StorageKey(id) == entries[n].key {
        assert StorageKey(id)[|STORAGE_PREFIX|..] == id;
      }
    }
  }

  lemma NewlyActive(entries: seq<Entry>, n: nat, id: string, other: string)
    requires DistinctKeys(entries, EntryKey) && n < |entries| && StorageKey(id) == entries[n].key
    requires id != "" && GetCartIn(entries, id) != []
    ensures !IsActive(entries, n, id)
    ensures IsActive(entries, n + 1, other) <==> IsActive(entries, n, other) || other == id
  {
    NextEntry(entries, n);
    StorageKeysDiffer(other, id);
  }

  lemma ListNext(entries: seq<Entry>, n: nat, ids: seq<string>, id: string)
    requires DistinctKeys(entries, EntryKey) && n < |entries| && Listed(entries, n, ids)
    requires STORAGE_PREFIX <= entries[n].key && id == entries[n].key[|STORAGE_PREFIX|..]
    requires id != "" && GetCartIn(entries, id) != []
    ensures Listed(entries, n + 1, ids + [id])
  {
    assert StorageKey(id) == entries[n].key;
    NextEntry(entries, n);
    CountOneMore(entries, ids, id);
    NewlyActive(entries, n, id, id);
    forall other
      ensures other in ids + [id] <==> IsActive(entries, n + 1, other)
    {
      NewlyActive(entries, n, id, other);
    }
  }

  lemma AllListed(entries: seq<Entry>, ids: seq<string>)
    requires Listed(entries, |entries|, ids)
    ensures CountAll(entries, ids) == Total(entries)
    ensures forall id :: id in ids <==> id != "" && GetCartIn(entries, id) != []
  {
    assert entries[..|entries|] == entries;
    forall id
      ensures IsActive(entries, |entries|, id) <==> id != "" && GetCartIn(entries, id) != []
    {
      FindMeans(entries, EntryKey, StorageKey(id));
    }
  }

  class CartStorage {
    /** Local storage in the order of `localStorage.key(i)`, carts and everything else. */
    var entries: seq<Entry>

    ghost predicate Valid()
      reads this
    {
      DistinctKeys(entries, EntryKey)
    }

    constructor ()
      ensures Valid() && entries == []
    {
      entries := [];
    }

    function GetCart(merchantId: string): seq<CartItem>
      reads this
    {
      GetCartIn(entries, merchantId)
    }

    method SetCart(merchantId: string, items: seq<CartItem>)
      requires Valid()
      modifies this
      ensures Valid() && entries == SetCartIn(old(entries), merchantId, items)
      ensures forall m :: GetCart(m) == if m == merchantId then items else old(GetCart(m))
    {
      SetCartLaw(entries, merchantId, items);
      if |items| == 0 {
        entries := RemoveItem(entries, StorageKey(merchantId));
      } else {
        entries := SetItem(entries, StorageKey(merchantId), Cart(items));
      }
    }

    method AddToCart(merchantId: string, product: Product, quantity: Option<int>) returns (next: seq<CartItem>)
      requires Valid()
      modifies this
      ensures Valid() && entries == After(old(entries), Add(merchantId, product, quantity))
      ensures forall m :: GetCart(m) == if m == merchantId then next else old(GetCart(m))
    {
      var existing := GetCart(merchantId);
      var qty := if quantity.Some? then quantity.value else 1;
      var idx := FindIndex(existing, KeyOf, product.key);
      if idx < |existing| {
        next := existing;
        next := next[idx := next[idx].(quantity := next[idx].quantity + qty)];
      } else {
        next := existing + [CartItem(product, qty)];
      }
      assert next == Added(existing, product, qty);
      SetCart(merchantId, next);
    }

    method UpdateQuantity(merchantId: string, key: ItemKey, quantity: int) returns (next: seq<CartItem>)
      requires Valid()
      modifies this
      ensures Valid() && entries == After(old(entries), Update(merchantId, key, quantity))
      ensures forall m :: GetCart(m) == if m == merchantId then next else old(GetCart(m))
    {
      next := Updated(GetCart(merchantId), key, quantity);
      SetCart(merchantId, next);
    }

    method RemoveFromCart(merchantId: string, key: ItemKey) returns (next: seq<CartItem>)
      requires Valid()
      modifies this
      ensures Valid() && entries == After(old(entries), Remove(merchantId, key))
      ensures forall m :: GetCart(m) == if m == merchantId then next else old(GetCart(m))
    {
      next := UpdateQuantity(merchantId, key, 0);
    }

    /** Exactly the named merchants with a cart that is not empty, each once. */
    method GetActiveCartMerchantIds() returns (ids: seq<string>)
      requires Valid()
      ensures forall i, j :: 0 <= i < j < |ids| ==> ids[i] != ids[j]
      ensures forall id :: id in ids <==> id != "" && GetCart(id) != []
      ensures CountAll(entries, ids) == Total(entries)
    {
      ids := [];
      for n := 0 to |entries|
        invariant Listed(entries, n, ids)
      {
        var key := entries[n].key;
        if STORAGE_PREFIX <= key {
          var id := key[|STORAGE_PREFIX|..];
          if id != "" && |GetCart(id)| > 0 {
            ListNext(entries, n, ids, id);
            ids := ids + [id];
          } else {
            PassOver(entries, n, ids);
          }
        } else {
          PassOver(entries, n, ids);
        }
      }
      AllListed(entries, ids);
    }

    /** The badge shows the sum of all quantities, but for a cart stored under no merchant. */
    method GetTotalCartCount(ghost ledger: Ledger) returns (count: int)
      requires Valid()
      ensures count == Total(entries)
      ensures Refines(entries, ledger) ==> count == Sum(ledger) - Count(GetCart(""))
    {
      if Refines(entries, ledger) {
        TotalIsSum(entries, ledger);
      }
      var ids := GetActiveCartMerchantIds();
      count := 0;
      for n := 0 to |ids|
        invariant count == CountAll(entries, ids[..n])
      {
        CountOneMore(entries, ids[..n], ids[n]);
        assert ids[..n + 1] == ids[..n] + [ids[n]];
        count := count + Count(GetCart(ids[n]));
      }
      assert ids[..|ids|] == ids;
    }
  }
}
