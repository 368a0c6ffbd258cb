/**
 * The grocery-list component: items are added with a trimmed, non-empty name,
 * removed by id, renamed by id, and the list can only be saved when it is not empty.
 */
module GroceryList {
  import opened Common

  // ---------------------------------------------------------------------------
  // String.prototype.trim
  // ---------------------------------------------------------------------------

  /** ECMAScript white space and line terminators, the characters `trim` removes. */
  predicate IsJsWhitespace(c: char)
  {
    || c in {'\t', '\n', '\U{000B}', '\U{000C}', '\r', ' ', '\U{00A0}', '\U{1680}'}
    || c in {'\U{2028}', '\U{2029}', '\U{202F}', '\U{205F}', '\U{3000}', '\U{FEFF}'}
    || '\U{2000}' <= c <= '\U{200A}'
  }

  ghost predicate IsTrimmed(s: string)
  {
    s == [] || (!IsJsWhitespace(s[0]) && !IsJsWhitespace(s[|s| - 1]))
  }

  function TrimStart(s: string): (r: string)
    ensures |r| <= |s| && r == s[|s| - |r|..]
    ensures r == [] || !IsJsWhitespace(r[0])
    ensures forall k :: 0 <= k < |s| - |r| ==> IsJsWhitespace(s[k])
  {
    if s != [] && IsJsWhitespace(s[0]) then
      var r := TrimStart(s[1..]);
      assert forall k :: 1 <= k < |s| - |r| ==> s[k] == s[1..][k - 1];
      r
    else s
  }

  function TrimEnd(s: string): (r: string)
    ensures |r| <= |s| && r == s[..|r|]
    ensures r == [] || !IsJsWhitespace(r[|r| - 1])
    ensures forall k :: |r| <= k < |s| ==> IsJsWhitespace(s[k])
  {
    if s != [] && IsJsWhitespace(s[|s| - 1]) then TrimEnd(s[..|s| - 1]) else s
  }

  /**
   * `s.trim()`: the slice of `s` left after dropping white space at both ends;
   * it is empty exactly when `s` is all white space.
   */
  function Trim(s: string): (r: string)
    ensures IsTrimmed(r)
    ensures |r| <= |s|
    ensures r == [] <==> forall k :: 0 <= k < |s| ==> IsJsWhitespace(s[k])
  {
    TrimFacts(s);
    TrimEnd(TrimStart(s))
  }

  /** Trimming both ends leaves a slice that is empty exactly when every character is white space. */
  lemma TrimFacts(s: string)
    ensures var r := TrimEnd(TrimStart(s));
      && IsTrimmed(r)
      && (r == [] <==> forall k :: 0 <= k < |s| ==> IsJsWhitespace(s[k]))
  {
    var start := TrimStart(s);
    var r := TrimEnd(start);
    var i := |s| - |start|;
    if r != [] {
      assert r[0] == start[0] == s[i];
    }
  }

  /** The trim is the slice of `s` that starts after the leading white space. */
  lemma TrimIsSlice(s: string) returns (i: nat)
    ensures i + |Trim(s)| <= |s| && Trim(s) == s[i..i + |Trim(s)|]
    ensures forall k :: 0 <= k < i ==> IsJsWhitespace(s[k])
    ensures forall k :: i + |Trim(s)| <= k < |s| ==> IsJsWhitespace(s[k])
  {
    var start := TrimStart(s);
    i := |s| - |start|;
    assert Trim(s) == s[i..][..|Trim(s)|];
    forall k | i + |Trim(s)| <= k < |s| ensures IsJsWhitespace(s[k]) {
      assert s[k] == start[k - i];
    }
  }

  /** A trimmed string is its own trim, so trimming twice is trimming once. */
  lemma TrimOfTrimmed(s: string)
    requires IsTrimmed(s)
    ensures Trim(s) == s
  {
    assert TrimStart(s) == s;
    assert TrimEnd(s) == s;
  }

  lemma TrimIdempotent(s: string)
    ensures Trim(Trim(s)) == Trim(s)
  {
    TrimOfTrimmed(Trim(s));
  }

  // ---------------------------------------------------------------------------
  // The list transforms
  // ---------------------------------------------------------------------------

  /** A list item; the creation and update dates are not modelled. */
  datatype GroceryItem = GroceryItem(id: ItemId, name: string)

  /** A name as the component stores it: trimmed and not empty. */
  ghost predicate NameOk(name: string)
  {
    name != [] && IsTrimmed(name)
  }

  ghost predicate AllNamesOk(items: seq<GroceryItem>)
  {
    forall k :: 0 <= k < |items| ==> NameOk(items[k].name)
  }

  ghost predicate UniqueIds(items: seq<GroceryItem>)
  {
    forall i, j :: 0 <= i < j < |items| ==> items[i].id != items[j].id
  }

  /** `[...items, newItem]` when the trimmed name is not empty. */
  function AddItem(items: seq<GroceryItem>, name: string, freshId: ItemId): seq<GroceryItem>
  {
    if Trim(name) == [] then items else items + [GroceryItem(freshId, Trim(name))]
  }

  /** `items.filter(item => item.id !== id)`. */
  function RemoveId(items: seq<GroceryItem>, id: ItemId): (r: seq<GroceryItem>)
    ensures forall x :: x in r <==> x in items && x.id != id
    ensures |r| <= |items|
  {
    if items == [] then []
    else
      assert items == [items[0]] + items[1..];
      (if items[0].id == id then [] else [items[0]]) + RemoveId(items[1..], id)
  }

  /** `items.map(item => item.id === id ? {...item, name} : item)`. */
  function RenameId(items: seq<GroceryItem>, id: ItemId, name: string): (r: seq<GroceryItem>)
    ensures |r| == |items|
    ensures forall k :: 0 <= k < |r| ==>
      r[k].id == items[k].id && r[k].name == if items[k].id == id then name else items[k].name
  {
    if items == [] then []
    else [if items[0].id == id then items[0].(name := name) else items[0]] + RenameId(items[1..], id, name)
  }

  /**
   * Adding a name with a non-blank trim appends exactly one item, with the fresh
   * id and the trimmed name, after the unchanged earlier items; a blank name adds
   * nothing.
   */
  lemma AddItemSpec(items: seq<GroceryItem>, name: string, freshId: ItemId)
    ensures Trim(name) == [] ==> AddItem(items, name, freshId) == items
    ensures Trim(name) != [] ==>
      && |AddItem(items, name, freshId)| == |items| + 1
      && AddItem(items, name, freshId)[..|items|] == items
      && AddItem(items, name, freshId)[|items|] == GroceryItem(freshId, Trim(name))
  {
    if Trim(name) != [] {
      var r := items + [GroceryItem(freshId, Trim(name))];
      assert AddItem(items, name, freshId) == r;
      assert r[..|items|] == items;
    }
  }

  /** Stored names stay trimmed and non-empty after an add. */
  lemma AddItemKeepsNames(items: seq<GroceryItem>, name: string, freshId: ItemId)
    requires AllNamesOk(items)
    ensures AllNamesOk(AddItem(items, name, freshId))
  {
    var t := Trim(name);
    if t != [] {
      assert AddItem(items, name, freshId) == items + [GroceryItem(freshId, t)];
      AllNamesOkSnoc(items, GroceryItem(freshId, t));
    }
  }

  lemma AllNamesOkSnoc(items: seq<GroceryItem>, x: GroceryItem)
    requires AllNamesOk(items) && NameOk(x.name)
    ensures AllNamesOk(items + [x])
  {
    var r := items + [x];
    forall k | 0 <= k < |r| ensures NameOk(r[k].name) {
      if k < |items| {
        assert r[k] == items[k];
      }
    }
  }

  /** An add with an id no item has keeps the ids unique. */
  lemma AddItemKeepsUniqueIds(items: seq<GroceryItem>, name: string, freshId: ItemId)
    requires UniqueIds(items) && forall k :: 0 <= k < |items| ==> items[k].id != freshId
    ensures UniqueIds(AddItem(items, name, freshId))
  {
    var t := Trim(name);
    if t != [] {
      assert AddItem(items, name, freshId) == items + [GroceryItem(freshId, t)];
      UniqueIdsSnoc(items, GroceryItem(freshId, t));
    }
  }

  lemma UniqueIdsSnoc(items: seq<GroceryItem>, x: GroceryItem)
    requires UniqueIds(items) && forall k :: 0 <= k < |items| ==> items[k].id != x.id
    ensures UniqueIds(items + [x])
  {
    var r := items + [x];
    forall i, j | 0 <= i < j < |r| ensures r[i].id != r[j].id {
      assert r[i] == items[i];
      if j < |items| {
        assert r[j] == items[j];
      }
    }
  }

  /** Deleting keeps the other items in their order: the filter distributes over concatenation. */
  lemma {:induction false} RemoveIdAppend(a: seq<GroceryItem>, b: seq<GroceryItem>, id: ItemId)
    ensures RemoveId(a + b, id) == RemoveId(a, id) + RemoveId(b, id)
  {
    if a == [] {
      assert a + b == b;
    } else {
      assert (a + b)[1..] == a[1..] + b;
      RemoveIdAppend(a[1..], b, id);
    }
  }

  /** Deleting an id no item has changes nothing. */
  lemma {:induction false} RemoveAbsentId(items: seq<GroceryItem>, id: ItemId)
    requires forall k :: 0 <= k < |items| ==> items[k].id != id
    ensures RemoveId(items, id) == items
  {
    if items != [] {
      RemoveAbsentId(items[1..], id);
      assert items == [items[0]] + items[1..];
    }
  }

  /** Deleting keeps every stored name valid. */
  lemma RemoveIdKeepsNames(items: seq<GroceryItem>, id: ItemId)
    requires AllNamesOk(items)
    ensures AllNamesOk(RemoveId(items, id))
  {
    var r := RemoveId(items, id);
    forall k | 0 <= k < |r| ensures NameOk(r[k].name) {
      assert r[k] in items;
      var j :| 0 <= j < |items| && items[j] == r[k];
    }
  }

  /** Deleting keeps the ids unique. */
  lemma {:induction false} RemoveIdKeepsUniqueIds(items: seq<GroceryItem>, id: ItemId)
    requires UniqueIds(items)
    ensures UniqueIds(RemoveId(items, id))
  {
    if items != [] {
      var tail := items[1..];
      assert UniqueIds(tail) by {
        forall i, j | 0 <= i < j < |tail| ensures tail[i].id != tail[j].id {
          assert tail[i] == items[i + 1] && tail[j] == items[j + 1];
        }
      }
      RemoveIdKeepsUniqueIds(tail, id);
      var rest := RemoveId(tail, id);
      assert RemoveId(items, id) == (if items[0].id == id then [] else [items[0]]) + rest;
      if items[0].id != id {
        forall x | x in rest ensures x.id != items[0].id {
          var k :| 0 <= k < |tail| && tail[k] == x;
          assert tail[k] == items[k + 1];
        }
        UniqueIdsCons(items[0], rest);
      }
    }
  }

  lemma UniqueIdsCons(x: GroceryItem, rest: seq<GroceryItem>)
    requires UniqueIds(rest) && forall y :: y in rest ==> y.id != x.id
    ensures UniqueIds([x] + rest)
  {
    var r := [x] + rest;
    forall i, j | 0 <= i < j < |r| ensures r[i].id != r[j].id {
      assert r[j] == rest[j - 1];
      if i > 0 {
        assert r[i] == rest[i - 1];
      }
    }
  }

  /** Renaming with a valid name keeps every stored name valid and the ids unchanged. */
  lemma RenameIdKeepsInvariant(items: seq<GroceryItem>, id: ItemId, name: string)
    requires NameOk(name)
    ensures AllNamesOk(items) ==> AllNamesOk(RenameId(items, id, name))
    ensures UniqueIds(items) ==> UniqueIds(RenameId(items, id, name))
  {
  }

  // ---------------------------------------------------------------------------
  // The component state and its handlers
  // ---------------------------------------------------------------------------

  /** The state of the component: the list, the add box, the item being edited and its edit box. */
  class GroceryListEditor {
    var items: seq<GroceryItem>
    var inputValue: string
    var editingId: Option<ItemId>
    var editValue: string

    /** Every stored name is trimmed and non-empty. */
    ghost predicate Valid()
      reads this
    {
      AllNamesOk(items)
    }

    constructor ()
      ensures Valid()
      ensures items == [] && inputValue == [] && editingId == None && editValue == []
    {
      items, inputValue, editingId, editValue := [], [], None, [];
    }

    /** The `onChange` of the add box. */
    method SetInputValue(value: string)
      requires Valid()
      modifies this
      ensures Valid()
      ensures inputValue == value
      ensures items == old(items) && editingId == old(editingId) && editValue == old(editValue)
    {
      inputValue := value;
    }

    /** The `onChange` of the edit box. */
    method SetEditValue(value: string)
      requires Valid()
      modifies this
      ensures Valid()
      ensures editValue == value
      ensures items == old(items) && editingId == old(editingId) && inputValue == old(inputValue)
    {
      editValue := value;
    }

    /** `handleAddItem`, with the id `crypto.randomUUID` would draw passed in. */
    method HandleAddItem(name: string, freshId: ItemId)
      requires Valid()
      modifies this
      ensures Valid()
      ensures items == AddItem(old(items), name, freshId)
      ensures inputValue == if Trim(name) == [] then old(inputValue) else []
      ensures editingId == old(editingId) && editValue == old(editValue)
    {
      AddItemKeepsNames(items, name, freshId);
      ghost var before := items;
      var trimmed := Trim(name);
      if trimmed != [] {
        var newItem := GroceryItem(freshId, trimmed);
        items := items + [newItem];
        inputValue := [];
        assert items == AddItem(before, name, freshId);
      } else {
        assert AddItem(before, name, freshId) == before;
      }
    }

    /** `handleKeyPress`: Enter adds the text of the add box. */
    method HandleKeyPress(key: string, freshId: ItemId)
      requires Valid()
      modifies this
      ensures Valid()
      ensures items == if key == "Enter" then AddItem(old(items), old(inputValue), freshId) else old(items)
      ensures inputValue == if key == "Enter" && Trim(old(inputValue)) != [] then [] else old(inputValue)
      ensures editingId == old(editingId) && editValue == old(editValue)
    {
      if key == "Enter" {
        HandleAddItem(inputValue, freshId);
      }
    }

    /** `handleDelete`. */
    method HandleDelete(id: ItemId)
      requires Valid()
      modifies this
      ensures Valid()
      ensures items == RemoveId(old(items), id)
      ensures inputValue == old(inputValue) && editingId == old(editingId) && editValue == old(editValue)
    {
      RemoveIdKeepsNames(items, id);
      items := RemoveId(items, id);
    }

    /** `startEdit`: the edit box opens on the item, holding its current name. */
    method StartEdit(item: GroceryItem)
      requires Valid()
      modifies this
      ensures Valid()
      ensures editingId == Some(item.id) && editValue == item.name
      ensures items == old(items) && inputValue == old(inputValue)
    {
      editingId := Some(item.id);
      editValue := item.name;
    }

    /** `handleEdit`: a non-blank edit renames the item(s) with the id and closes the edit box. */
    method HandleEdit(id: ItemId)
      requires Valid()
      modifies this
      ensures Valid()
      ensures Trim(old(editValue)) == [] ==> items == old(items) && editingId == old(editingId)
      ensures Trim(old(editValue)) != [] ==>
        items == RenameId(old(items), id, Trim(old(editValue))) && editingId == None
      ensures inputValue == old(inputValue) && editValue == old(editValue)
    {
      var trimmed := Trim(editValue);
      if trimmed != [] {
        RenameEdit(id, trimmed);
      }
    }

    /** The non-blank branch of `handleEdit`. */
    method RenameEdit(id: ItemId, trimmed: string)
      requires Valid() && NameOk(trimmed)
      modifies this`items, this`editingId
      ensures Valid()
      ensures items == RenameId(old(items), id, trimmed) && editingId == None
    {
      RenameIdKeepsInvariant(items, id, trimmed);
      items := RenameId(items, id, trimmed);
      editingId := None;
    }

    /** `handleSave`: an empty list is refused; a non-empty one is accepted and left as it is. */
    method HandleSave() returns (saved: bool)
      ensures saved <==> items != []
    {
      saved := |items| != 0;
    }
  }
}
