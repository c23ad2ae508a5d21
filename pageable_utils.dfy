/** `PageableUtils.createPageable(page, size, sort)`: turns the `sort` request
    parameters ("field" or "field,direction") into a page request with a sort order,
    dropping what cannot be read and defaulting the direction to ascending. */
module PageableUtils {
  import opened Base
  import opened JavaText

  datatype Direction = Asc | Desc

  /** `Sort.Order(direction, property)`. */
  datatype Order = Order(direction: Direction, property: string)

  /** `Sort.unsorted()` or `Sort.by(orders)` with at least one order. */
  datatype Sort = Unsorted | By(orders: seq<Order>)

  datatype PageRequest = PageRequest(page: nat, size: nat, sort: Sort)

  /** `PageRequest.of(page, size, sort)`: a negative page index or a size below one
      is an IllegalArgumentException. */
  function PageRequestOf(page: int, size: int, sort: Sort): (r: Result<PageRequest>)
    ensures r.Ok? <==> page >= 0 && size >= 1
    ensures r.Ok? ==> r.value == PageRequest(page, size, sort)
    ensures r.Err? ==> r.error == IllegalArgument(InvalidPageRequest)
  {
    if page < 0 || size < 1 then Err(IllegalArgument(InvalidPageRequest))
    else Ok(PageRequest(page, size, sort))
  }

  /** `Sort.Direction.fromString(s)`: "ASC" or "DESC" in any case; anything else is
      an IllegalArgumentException, here `None`. */
  function DirectionFromString(s: string): (d: Option<Direction>)
    ensures d == Some(Asc) <==> EqualsIgnoringCase(s, "ASC")
    ensures d == Some(Desc) <==> EqualsIgnoringCase(s, "DESC")
  {
    if EqualsIgnoringCase(s, "ASC") then Some(Asc)
    else if EqualsIgnoringCase(s, "DESC") then Some(Desc)
    else None
  }

  /** "asc" and "desc" are read as the two directions. */
  lemma DirectionWords()
    ensures DirectionFromString("asc") == Some(Asc)
    ensures DirectionFromString("desc") == Some(Desc)
  {
    assert UpperCase('a') == 'A' && UpperCase('s') == 'S' && UpperCase('c') == 'C';
    assert UpperCase('d') == 'D' && UpperCase('e') == 'E';
    assert EqualsIgnoringCase("asc", "ASC");
    assert EqualsIgnoringCase("desc", "DESC");
  }

  /** A property name a parsed order can hold: non-empty, already trimmed, and
      without a comma. */
  predicate IsPropertyName(p: string) {
    p != [] && Trim(p) == p && ',' !in p
  }

  /** `parseSortOrder(sortParam)`. A null or blank entry gives null. The trimmed
      entry is split at its first comma: without a comma it is the property, sorted
      ascending; otherwise an empty property gives null, an empty direction means
      ascending, and a direction `fromString` rejects falls back to ascending. */
  function ParseSortOrder(param: Option<string>): (o: Option<Order>)
    ensures IsBlank(param) ==> o.None?
    ensures !IsBlank(param) && ',' !in Trim(param.value) ==> o == Some(Order(Asc, Trim(param.value)))
    ensures o.Some? ==> IsPropertyName(o.value.property)
  {
    if IsBlank(param) then None
    else
      var trimmed := Trim(param.value);
      var parts := SplitAtFirstComma(trimmed);
      TrimIdempotent(param.value);
      if |parts| == 1 then Some(Order(Asc, Trim(parts[0])))
      else
        var field := Trim(parts[0]);
        var direction := Trim(parts[1]);
        TrimIdempotent(parts[0]);
        if field == [] then None
        else if direction == [] then Some(Order(Asc, field))
        else match DirectionFromString(direction)
          case Some(d) => Some(Order(d, field))
          case None => Some(Order(Asc, Trim(parts[0])))
  }

  /** The stream pipeline: keep the non-null, non-blank entries, parse each, and keep
      the orders that are not null, in their input order. */
  function CollectOrders(sort: seq<Option<string>>): (orders: seq<Order>)
    ensures |orders| <= |sort|
    ensures forall i | 0 <= i < |orders| :: IsPropertyName(orders[i].property)
  {
    if sort == [] then [] else OrdersOf(sort[0]) + CollectOrders(sort[1..])
  }

  /** What one entry contributes to the pipeline: nothing when it is null or blank
      or parses to null, otherwise its order. */
  function OrdersOf(entry: Option<string>): (orders: seq<Order>)
    ensures |orders| <= 1
    ensures forall i | 0 <= i < |orders| :: IsPropertyName(orders[i].property)
  {
    var order := if IsBlank(entry) then None else ParseSortOrder(entry);
    if order.Some? then [order.value] else []
  }

  /** `createPageable(page, size, sort)`: unsorted when `sort` is null, empty, or
      yields no order; otherwise sorted by the collected orders. */
  function CreatePageable(page: int, size: int, sort: Option<seq<Option<string>>>): (r: Result<PageRequest>)
    ensures r.Ok? <==> page >= 0 && size >= 1
    ensures r.Err? ==> r.error == IllegalArgument(InvalidPageRequest)
    ensures sort.None? || sort.value == [] ==> r == PageRequestOf(page, size, Unsorted)
    ensures r.Ok? ==> r.value.page == page && r.value.size == size
    ensures r.Ok? && r.value.sort.By? ==> sort.Some? && r.value.sort.orders == CollectOrders(sort.value) != []
    ensures r.Ok? && r.value.sort.Unsorted? ==> sort.None? || CollectOrders(sort.value) == []
  {
    if sort.None? || sort.value == [] then PageRequestOf(page, size, Unsorted)
    else
      var orders := CollectOrders(sort.value);
      if orders == [] then PageRequestOf(page, size, Unsorted)
      else PageRequestOf(page, size, By(orders))
  }

  // ---------------------------------------------------------------------------
  // Properties.
  // ---------------------------------------------------------------------------

  /** The pipeline works entry by entry, so the orders of a concatenation are the
      concatenation of the orders: surviving orders keep their input order. */
  lemma {:induction false} CollectAppend(a: seq<Option<string>>, b: seq<Option<string>>)
    ensures CollectOrders(a + b) == CollectOrders(a) + CollectOrders(b)
  {
    if a != [] {
      assert (a + b)[0] == a[0] && (a + b)[1..] == a[1..] + b;
      CollectAppend(a[1..], b);
      assert CollectOrders(a + b) == OrdersOf(a[0]) + CollectOrders(a[1..] + b);
      assert CollectOrders(a) == OrdersOf(a[0]) + CollectOrders(a[1..]);
    } else {
      assert a + b == b;
    }
  }

  /** Null and blank entries contribute nothing, wherever they stand. */
  lemma BlankEntriesDropped(a: seq<Option<string>>, blank: Option<string>, b: seq<Option<string>>)
    requires IsBlank(blank)
    ensures CollectOrders(a + [blank] + b) == CollectOrders(a + b)
  {
    assert OrdersOf(blank) == [];
    assert CollectOrders([blank]) == OrdersOf(blank) + CollectOrders([]);
    CollectAppend(a, [blank]);
    assert CollectOrders(a + [blank]) == CollectOrders(a);
    CollectAppend(a + [blank], b);
    CollectAppend(a, b);
  }

  /** A sort list of blank entries only gives an unsorted request. */
  lemma {:induction false} AllBlankIsUnsorted(page: int, size: int, sort: seq<Option<string>>)
    requires forall i | 0 <= i < |sort| :: IsBlank(sort[i])
    ensures CreatePageable(page, size, Some(sort)) == PageRequestOf(page, size, Unsorted)
  {
    AllBlankCollectsNothing(sort);
  }

  lemma {:induction false} AllBlankCollectsNothing(sort: seq<Option<string>>)
    requires forall i | 0 <= i < |sort| :: IsBlank(sort[i])
    ensures CollectOrders(sort) == []
  {
    if sort != [] {
      AllBlankCollectsNothing(sort[1..]);
    }
  }

  /** An entry "field,direction" with nothing to trim around it splits into the
      field and the direction. */
  lemma ParseEntry(field: string, direction: string)
    requires IsPropertyName(field)
    requires direction == [] || !IsTrimmed(direction[|direction| - 1])
    ensures var s := field + "," + direction;
            && Trim(s) == s
            && SplitAtFirstComma(s) == [field, direction]
  {
    var s := field + "," + direction;
    assert Trim(s) == s by {
      assert s[0] == field[0] && s[|s| - 1] == if direction == [] then ',' else direction[|direction| - 1];
      TrimPadding(s, 0, |s|);
      assert s[0..|s|] == s;
    }
    assert IndexOf(s, ',') == Some(|field|) by {
      assert s[|field|] == ',';
      assert forall k | 0 <= k < |field| :: s[k] == field[k];
    }
    assert s[..|field|] == field && s[|field| + 1..] == direction;
  }

  /** An entry that splits into two parts: a blank property drops it, a blank
      direction means ascending, and a direction `fromString` rejects means
      ascending too. */
  lemma ParseTwoParts(param: Option<string>, field: string, direction: string)
    requires !IsBlank(param) && SplitAtFirstComma(Trim(param.value)) == [field, direction]
    ensures Trim(field) == [] ==> ParseSortOrder(param) == None
    ensures Trim(field) != [] && Trim(direction) == [] ==> ParseSortOrder(param) == Some(Order(Asc, Trim(field)))
    ensures Trim(field) != [] && Trim(direction) != [] ==>
              var d := DirectionFromString(Trim(direction));
              ParseSortOrder(param) == Some(Order(if d.Some? then d.value else Asc, Trim(field)))
  {
  }

  /** A direction string holding a comma is neither ASC nor DESC. */
  lemma CommaIsNoDirection(d: string)
    requires ',' in d
    ensures DirectionFromString(d).None?
  {
    var k :| 0 <= k < |d| && d[k] == ',';
    assert UpperCase(d[k]) == ',';
  }

  /** The entry is split at its first comma only: everything after it, further
      commas included, is the direction string, and a direction that is not ASC or
      DESC sorts the property ascending. */
  lemma SplitAtFirstCommaOnly(field: string, rest: string)
    requires IsPropertyName(field) && ',' in rest
    requires !IsTrimmed(rest[|rest| - 1])
    ensures ParseSortOrder(Some(field + "," + rest)) == Some(Order(Asc, field))
  {
    var s := field + "," + rest;
    assert Trim(s) == s && SplitAtFirstComma(s) == [field, rest] by {
      ParseEntry(field, rest);
    }
    assert ',' in Trim(rest) by {
      var k :| 0 <= k < |rest| && rest[k] == ',';
      TrimKeeps(rest, k);
    }
    CommaIsNoDirection(Trim(rest));
    ParseTwoParts(Some(s), field, rest);
  }

  /** "field," sorts the field ascending. */
  lemma TrailingComma(field: string)
    requires IsPropertyName(field)
    ensures ParseSortOrder(Some(field + ",")) == Some(Order(Asc, field))
  {
    assert Trim(field + ",") == field + "," && SplitAtFirstComma(field + ",") == [field, ""] by {
      ParseEntry(field, "");
      assert field + "," + "" == field + ",";
    }
    ParseTwoParts(Some(field + ","), field, "");
  }

  /** ",direction" has an empty property and is dropped. */
  lemma LeadingComma(direction: string)
    requires direction == [] || !IsTrimmed(direction[|direction| - 1])
    ensures ParseSortOrder(Some("," + direction)) == None
  {
    var s := "," + direction;
    assert Trim(s) == s by {
      TrimPadding(s, 0, |s|);
      assert s[0..|s|] == s;
    }
    assert SplitAtFirstComma(s) == ["", direction] by {
      assert IndexOf(s, ',') == Some(0);
      assert s[..0] == "" && s[1..] == direction;
    }
    ParseTwoParts(Some(s), "", direction);
  }

  /** "property,word" for a trimmed `word` that names `d` is parsed as (d, property). */
  lemma ParseNamedDirection(field: string, word: string, d: Direction)
    requires IsPropertyName(field) && DirectionFromString(word) == Some(d)
    requires Trim(word) == word && word != []
    ensures ParseSortOrder(Some(field + "," + word)) == Some(Order(d, field))
  {
    var s := field + "," + word;
    assert Trim(s) == s && SplitAtFirstComma(s) == [field, word] by {
      ParseEntry(field, word);
    }
    ParseTwoParts(Some(s), field, word);
  }

  /** Formatting an order as "property,asc" or "property,desc" and parsing it back
      gives the order again. */
  lemma ParseFormatted(o: Order)
    requires IsPropertyName(o.property)
    ensures ParseSortOrder(Some(o.property + "," + (if o.direction == Asc then "asc" else "desc"))) == Some(o)
  {
    var word := if o.direction == Asc then "asc" else "desc";
    assert Trim(word) == word by {
      TrimPadding(word, 0, |word|);
      assert word[0..|word|] == word;
    }
    DirectionWords();
    ParseNamedDirection(o.property, word, o.direction);
  }
}
