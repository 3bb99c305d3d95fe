// What the Zakup parser and adapter read from one response of the notice endpoint.
module NoticeParser {
  import opened Types

  datatype Json = Null | Bool(flag: bool) | Number(n: int) | Text(s: string) | List(items: seq<Json>) | Object(fields: seq<Field>)

  datatype Field = Field(name: string, value: Json)

  // The position of a field, |fields| if there is none.
  function Find(fields: seq<Field>, name: string): (i: nat)
    ensures i <= |fields| && (i < |fields| ==> fields[i].name == name)
    ensures forall j | 0 <= j < i :: fields[j].name != name
  {
    if fields == [] then 0
    else if fields[0].name == name then 0
    else 1 + Find(fields[1..], name)
  }

  // None, "" and [] do not count as values.
  predicate Blank(value: Json) {
    value == Null || value == Text("") || value == List([])
  }

  // _pick
  function Pick(fields: seq<Field>, names: seq<string>): Option<Json> {
    if names == [] then None
    else
      var i := Find(fields, names[0]);
      if i < |fields| && !Blank(fields[i].value) then Some(fields[i].value) else Pick(fields, names[1..])
  }

  function Objects(items: seq<Json>): seq<Json> {
    if items == [] then []
    else (if items[0].Object? then [items[0]] else []) + Objects(items[1..])
  }

  const ITEM_KEYS := ["content", "items", "data", "results", "result"]

  // _items
  function Items(payload: Json): seq<Json>
    decreases payload, 6
  {
    match payload
    case List(items) => Objects(items)
    case Object(_) => ItemsUnder(payload, ITEM_KEYS)
    case _ => []
  }

  function ItemsUnder(payload: Json, keys: seq<string>): seq<Json>
    requires payload.Object? && |keys| <= 5
    decreases payload, |keys|
  {
    if keys == [] then []
    else
      var i := Find(payload.fields, keys[0]);
      if i == |payload.fields| then ItemsUnder(payload, keys[1..])
      else
        var value := payload.fields[i].value;
        if value.List? then Objects(value.items)
        else if value.Object? && Items(value) != [] then Items(value)
        else ItemsUnder(payload, keys[1..])
  }

  predicate Digits(s: string) {
    s != "" && forall i | 0 <= i < |s| :: '0' <= s[i] <= '9'
  }

  function Decimal(s: string): nat
    requires forall i | 0 <= i < |s| :: '0' <= s[i] <= '9'
  {
    if s == "" then 0 else 10 * Decimal(s[..|s| - 1]) + (s[|s| - 1] as int - '0' as int)
  }

  // A total is an integer, a bool (which is one in Python) or a string of digits.
  function Count(value: Json): Option<int> {
    match value
    case Number(n) => Some(n)
    case Bool(flag) => Some(if flag then 1 else 0)
    case Text(s) => if Digits(s) then Some(Decimal(s)) else None
    case _ => None
  }

  function OwnTotal(fields: seq<Field>, keys: seq<string>): Option<int> {
    if keys == [] then None
    else
      var i := Find(fields, keys[0]);
      if i < |fields| && Count(fields[i].value).Some? then Count(fields[i].value) else OwnTotal(fields, keys[1..])
  }

  const TOTAL_KEYS := ["totalElements", "totalCount", "total"]

  // _catalog_total
  function CatalogTotal(payload: Json): Option<int>
    decreases payload, 0
  {
    if !payload.Object? then None
    else
      var own := OwnTotal(payload.fields, TOTAL_KEYS);
      if own.Some? then own else NestedTotal(payload, 0)
  }

  function NestedTotal(payload: Json, i: nat): Option<int>
    requires payload.Object? && i <= |payload.fields|
    decreases payload, 0, |payload.fields| - i
  {
    if i == |payload.fields| then None
    else
      var total := CatalogTotal(payload.fields[i].value);
      if total.Some? then total else NestedTotal(payload, i + 1)
  }

  // The lot id of an item, by Python's str; an item without one is skipped.
  function LotId(item: Json, str: Json -> string): Option<string> {
    var value := if item.Object? then Pick(item.fields, ["id", "lotId", "lot_id", "itemId"]) else None;
    if value.None? || str(value.value) == "" then None else Some(str(value.value))
  }

  function LotIds(items: seq<Json>, str: Json -> string): seq<string> {
    if items == [] then []
    else
      var id := LotId(items[|items| - 1], str);
      LotIds(items[..|items| - 1], str) + if id.Some? then [id.value] else []
  }

  // What the collecting loop needs of a response: the ids of its lots, and the total it reports.
  datatype Page = Page(ids: seq<string>, total: Option<int>)

  function PageOf(payload: Json, str: Json -> string): Page {
    Page(LotIds(Items(payload), str), CatalogTotal(payload))
  }

  // ---------------------------------------------------------------- single fields

  // The field has a value that counts: not null, not empty text, not an empty list.
  ghost predicate Holds(fields: seq<Field>, name: string, value: Json) {
    var i := Find(fields, name);
    && i < |fields| && fields[i].value == value
    && match value
       case Null => false
       case Text(s) => |s| > 0
       case List(items) => |items| > 0
       case _ => true
  }

  // The first of these fields that has a value that counts.
  ghost predicate FirstOf(fields: seq<Field>, names: seq<string>, n: nat, value: Json) {
    && n < |names| && Holds(fields, names[n], value)
    && forall m: nat, other | m < n :: !Holds(fields, names[m], other)
  }

  lemma {:induction false} PickFirst(fields: seq<Field>, names: seq<string>, n: nat, value: Json)
    requires FirstOf(fields, names, n, value)
    ensures Pick(fields, names) == Some(value)
  {
    if n > 0 {
      var i := Find(fields, names[0]);
      assert i < |fields| ==> !Holds(fields, names[0], fields[i].value);
      forall m: nat, other | m < n - 1
        ensures !Holds(fields, names[1..][m], other)
      {
        assert names[1..][m] == names[m + 1];
      }
      PickFirst(fields, names[1..], n - 1, value);
    }
  }

  lemma {:induction false} PickedFrom(fields: seq<Field>, names: seq<string>) returns (n: nat)
    requires Pick(fields, names).Some?
    ensures FirstOf(fields, names, n, Pick(fields, names).value)
  {
    var i := Find(fields, names[0]);
    if i < |fields| && Holds(fields, names[0], fields[i].value) {
      n := 0;
    } else {
      var k := PickedFrom(fields, names[1..]);
      n := k + 1;
      forall m: nat, other | m < n
        ensures !Holds(fields, names[m], other)
      {
        assert m > 0 ==> names[m] == names[1..][m - 1];
      }
    }
  }

  // The id of a lot is that of the first of four fields that has a value; an item that is no object
  // has none, and what prints as nothing is none.
  lemma LotIdIff(item: Json, str: Json -> string, id: string)
    ensures LotId(item, str) == Some(id)
            <==> && item.Object? && id != ""
                 && exists n: nat, value :: FirstOf(item.fields, ["id", "lotId", "lot_id", "itemId"], n, value) && str(value) == id
  {
    if item.Object? {
      var names := ["id", "lotId", "lot_id", "itemId"];
      if n: nat, value :| FirstOf(item.fields, names, n, value) && str(value) == id {
        PickFirst(item.fields, names, n, value);
      }
      if Pick(item.fields, names).Some? {
        var n := PickedFrom(item.fields, names);
      }
    }
  }

  // The objects of a list, in its order.
  lemma {:induction false} ObjectsConcat(a: seq<Json>, b: seq<Json>)
    ensures Objects(a + b) == Objects(a) + Objects(b)
  {
    if a == [] {
      assert a + b == b;
    } else {
      ObjectsConcat(a[1..], b);
      assert (a + b)[1..] == a[1..] + b;
    }
  }

  lemma ObjectsOne(item: Json)
    ensures Objects([item]) == if item.Object? then [item] else []
  {
    assert [item][1..] == [];
  }

  // The decimal numeral of a number.
  function Numeral(n: nat): string {
    if n < 10 then [Digit(n)] else Numeral(n / 10) + [Digit(n % 10)]
  }

  function Digit(n: nat): char
    requires n < 10
  {
    "0123456789"[n]
  }

  lemma OneMoreDigit(s: string, n: nat)
    requires n < 10 && forall i | 0 <= i < |s| :: '0' <= s[i] <= '9'
    ensures Digits(s + [Digit(n)]) && Decimal(s + [Digit(n)]) == 10 * Decimal(s) + n
  {
    assert (s + [Digit(n)])[..|s|] == s;
  }

  // A numeral is read back as the number, and zeros in front of it change nothing.
  lemma {:induction false} NumeralIsRead(n: nat)
    ensures Digits(Numeral(n)) && Decimal(Numeral(n)) == n
    ensures Count(Text(Numeral(n))) == Some(n)
  {
    if n < 10 {
      OneMoreDigit("", n);
      assert "" + [Digit(n)] == Numeral(n);
    } else {
      NumeralIsRead(n / 10);
      OneMoreDigit(Numeral(n / 10), n % 10);
    }
  }

  lemma {:induction false} LeadingZero(s: string)
    requires forall i | 0 <= i < |s| :: '0' <= s[i] <= '9'
    ensures Decimal("0" + s) == Decimal(s)
  {
    if s == "" {
      assert ("0" + s)[..0] == "";
    } else {
      LeadingZero(s[..|s| - 1]);
      assert ("0" + s)[..|s|] == "0" + s[..|s| - 1];
    }
  }

  // What counts as a total: a number, a truth value as 1 or 0, and text that is all digits.
  ghost predicate Reads(value: Json, total: int) {
    || value == Number(total)
    || (value == Bool(true) && total == 1) || (value == Bool(false) && total == 0)
    || (value.Text? && |value.s| > 0 && (forall i | 0 <= i < |value.s| :: value.s[i] in "0123456789") && Decimal(value.s) == total)
  }

  lemma CountIff(value: Json, total: int)
    ensures Count(value) == Some(total) <==> Reads(value, total)
  {
  }

  ghost predicate TotalUnder(fields: seq<Field>, key: string, total: int) {
    var i := Find(fields, key);
    i < |fields| && Reads(fields[i].value, total)
  }

  ghost predicate FirstTotal(fields: seq<Field>, keys: seq<string>, n: nat, total: int) {
    && n < |keys| && TotalUnder(fields, keys[n], total)
    && forall m: nat, other | m < n :: !TotalUnder(fields, keys[m], other)
  }

  lemma {:induction false} TotalFirst(fields: seq<Field>, keys: seq<string>, n: nat, total: int)
    requires FirstTotal(fields, keys, n, total)
    ensures OwnTotal(fields, keys) == Some(total)
  {
    var i := Find(fields, keys[0]);
    if n > 0 {
      forall other | i < |fields|
        ensures Count(fields[i].value) != Some(other)
      {
        assert !TotalUnder(fields, keys[0], other);
        CountIff(fields[i].value, other);
      }
      forall m: nat, other | m < n - 1
        ensures !TotalUnder(fields, keys[1..][m], other)
      {
        assert keys[1..][m] == keys[m + 1];
      }
      TotalFirst(fields, keys[1..], n - 1, total);
    } else {
      CountIff(fields[i].value, total);
    }
  }

  lemma {:induction false} TotalFrom(fields: seq<Field>, keys: seq<string>) returns (n: nat)
    requires OwnTotal(fields, keys).Some?
    ensures FirstTotal(fields, keys, n, OwnTotal(fields, keys).value)
  {
    var i := Find(fields, keys[0]);
    if i < |fields| && Count(fields[i].value).Some? {
      n := 0;
      CountIff(fields[i].value, Count(fields[i].value).value);
    } else {
      var k := TotalFrom(fields, keys[1..]);
      n := k + 1;
      forall m: nat, other | m < n
        ensures !TotalUnder(fields, keys[m], other)
      {
        if m == 0 && i < |fields| {
          CountIff(fields[i].value, other);
        } else if m > 0 {
          assert keys[m] == keys[1..][m - 1];
        }
      }
    }
  }

  // The total an object reports itself is that of the first of three fields that has one.
  lemma OwnTotalIff(fields: seq<Field>, total: int)
    ensures OwnTotal(fields, TOTAL_KEYS) == Some(total)
            <==> exists n: nat :: FirstTotal(fields, ["totalElements", "totalCount", "total"], n, total)
  {
    if n: nat :| FirstTotal(fields, TOTAL_KEYS, n, total) {
      TotalFirst(fields, TOTAL_KEYS, n, total);
    }
    if OwnTotal(fields, TOTAL_KEYS).Some? {
      var n := TotalFrom(fields, TOTAL_KEYS);
    }
  }

  // ---------------------------------------------------------------- what is found

  // What a path of field positions leads to.
  function At(payload: Json, path: seq<nat>): Option<Json>
    decreases path
  {
    if path == [] then Some(payload)
    else if payload.Object? && path[0] < |payload.fields| then At(payload.fields[path[0]].value, path[1..])
    else None
  }

  // The object at the end of the path has a total of its own.
  predicate Reports(payload: Json, path: seq<nat>, total: int) {
    var found := At(payload, path);
    found.Some? && found.value.Object? && OwnTotal(found.value.fields, TOTAL_KEYS) == Some(total)
  }

  // The order of a walk that looks at an object before its fields, and at the fields in turn.
  predicate NotAfter(p: seq<nat>, q: seq<nat>)
    decreases p
  {
    p == [] || (q != [] && (p[0] < q[0] || (p[0] == q[0] && NotAfter(p[1..], q[1..]))))
  }

  // The path is the first one, in that order, to an object that reports a total.
  ghost predicate ReportsFirst(payload: Json, path: seq<nat>, total: int) {
    Reports(payload, path, total) && forall q, other | Reports(payload, q, other) :: NotAfter(path, q)
  }

  lemma {:induction false} NestedFrom(payload: Json, i: nat) returns (j: nat)
    requires payload.Object? && i <= |payload.fields| && NestedTotal(payload, i).Some?
    ensures i <= j < |payload.fields| && CatalogTotal(payload.fields[j].value) == NestedTotal(payload, i)
    ensures forall k: nat | i <= k < j :: CatalogTotal(payload.fields[k].value).None?
    decreases |payload.fields| - i
  {
    if CatalogTotal(payload.fields[i].value).Some? {
      j := i;
    } else {
      j := NestedFrom(payload, i + 1);
    }
  }

  lemma {:induction false} NestedFinds(payload: Json, i: nat, j: nat)
    requires payload.Object? && i <= j < |payload.fields| && CatalogTotal(payload.fields[j].value).Some?
    ensures NestedTotal(payload, i).Some?
    decreases j - i
  {
    if i < j {
      NestedFinds(payload, i + 1, j);
    }
  }

  lemma {:induction false} TotalIsFound(payload: Json, path: seq<nat>, total: int)
    requires Reports(payload, path, total)
    ensures CatalogTotal(payload).Some?
    decreases path
  {
    if path != [] {
      TotalIsFound(payload.fields[path[0]].value, path[1..], total);
      NestedFinds(payload, 0, path[0]);
    }
  }

  lemma {:induction false} TotalComesFrom(payload: Json) returns (path: seq<nat>)
    requires CatalogTotal(payload).Some?
    ensures ReportsFirst(payload, path, CatalogTotal(payload).value)
    decreases payload
  {
    if OwnTotal(payload.fields, TOTAL_KEYS).Some? {
      path := [];
    } else {
      var j := NestedFrom(payload, 0);
      var rest := TotalComesFrom(payload.fields[j].value);
      path := [j] + rest;
      assert path[1..] == rest;
      forall q, other | Reports(payload, q, other)
        ensures NotAfter(path, q)
      {
        assert q != [];
        assert Reports(payload.fields[q[0]].value, q[1..], other);
        TotalIsFound(payload.fields[q[0]].value, q[1..], other);
      }
    }
  }

  lemma {:induction false} NotAfterEither(p: seq<nat>, q: seq<nat>)
    requires NotAfter(p, q) && NotAfter(q, p)
    ensures p == q
    decreases p
  {
    if p != [] && q != [] {
      NotAfterEither(p[1..], q[1..]);
      assert p == [p[0]] + p[1..] && q == [q[0]] + q[1..];
    }
  }

  // What is found: nothing, if no object, however deep in objects, reports a total; and else the one
  // that comes first, an object before its fields and the fields in turn.
  lemma {:induction false} TotalFoundIff(payload: Json, total: int)
    ensures CatalogTotal(payload) == Some(total) <==> exists path :: ReportsFirst(payload, path, total)
    ensures CatalogTotal(payload).None? <==> forall path, other :: !Reports(payload, path, other)
  {
    if CatalogTotal(payload).Some? {
      var path := TotalComesFrom(payload);
      if other :| ReportsFirst(payload, other, total) {
        NotAfterEither(path, other);
      }
    }
    forall path, other | Reports(payload, path, other)
      ensures CatalogTotal(payload).Some?
    {
      TotalIsFound(payload, path, other);
    }
  }

  // The items of a response are the objects of one list in it, reached through fields that may hold
  // items.
  predicate Lists(payload: Json, path: seq<nat>, items: seq<Json>)
    decreases path
  {
    if path == [] then payload.List? && items == Objects(payload.items)
    else
      && payload.Object? && path[0] < |payload.fields| && payload.fields[path[0]].name in ITEM_KEYS
      && Lists(payload.fields[path[0]].value, path[1..], items)
  }

  lemma {:induction false} ItemsComeFromOneList(payload: Json) returns (path: seq<nat>)
    requires Items(payload) != []
    ensures Lists(payload, path, Items(payload))
    decreases payload, 6
  {
    if payload.List? {
      path := [];
    } else {
      path := ItemsComeFrom(payload, ITEM_KEYS);
    }
  }

  lemma {:induction false} ItemsComeFrom(payload: Json, keys: seq<string>) returns (path: seq<nat>)
    requires payload.Object? && |keys| <= 5 && ItemsUnder(payload, keys) != []
    requires forall key | key in keys :: key in ITEM_KEYS
    ensures Lists(payload, path, ItemsUnder(payload, keys))
    decreases payload, |keys|
  {
    var i := Find(payload.fields, keys[0]);
    if i < |payload.fields| && payload.fields[i].value.List? {
      path := [i];
      assert path[1..] == [];
    } else if i < |payload.fields| && payload.fields[i].value.Object? && Items(payload.fields[i].value) != [] {
      var rest := ItemsComeFromOneList(payload.fields[i].value);
      path := [i] + rest;
      assert path[1..] == rest;
    } else {
      path := ItemsComeFrom(payload, keys[1..]);
    }
  }

  // The field of this name holds a list, or an object that has items.
  predicate Offers(payload: Json, key: string)
    requires payload.Object?
  {
    var i := Find(payload.fields, key);
    i < |payload.fields|
    && (payload.fields[i].value.List? || (payload.fields[i].value.Object? && Items(payload.fields[i].value) != []))
  }

  lemma {:induction false} ItemsSkip(payload: Json, n: nat, m: nat)
    requires payload.Object? && n <= m <= 5 && forall k: nat | n <= k < m :: !Offers(payload, ITEM_KEYS[k])
    ensures ItemsUnder(payload, ITEM_KEYS[n..]) == ItemsUnder(payload, ITEM_KEYS[m..])
    decreases m - n
  {
    if n < m {
      ItemsSkip(payload, n + 1, m);
      assert ITEM_KEYS[n..][0] == ITEM_KEYS[n] && ITEM_KEYS[n..][1..] == ITEM_KEYS[n + 1..];
      assert !Offers(payload, ITEM_KEYS[n]);
    }
  }

  // Which list that is: the first of the item fields that offers any decides, and if it holds a list
  // it does so even without objects.
  lemma ItemsOfFirstOffer(payload: Json, n: nat)
    requires payload.Object? && n <= 5 && forall k: nat | k < n :: !Offers(payload, ITEM_KEYS[k])
    ensures n == 5 ==> Items(payload) == []
    ensures n < 5 && Offers(payload, ITEM_KEYS[n]) ==>
              var key := ["content", "items", "data", "results", "result"][n];
              var value := payload.fields[Find(payload.fields, key)].value;
              Items(payload) == if value.List? then Objects(value.items) else Items(value)
  {
    ItemsSkip(payload, 0, n);
    assert ITEM_KEYS[0..] == ITEM_KEYS;
    if n < 5 {
      assert ITEM_KEYS[n..][0] == ITEM_KEYS[n];
    }
  }
}
