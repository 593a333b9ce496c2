/** The children of an array or object: siblings linked by next and prev, where the head's prev is the
    tail (src/utils/cJSON.c:1898-1948, 1998-2058, 2258-2304, 2334-2425). */
module JsonList {

  /** The neighbours of element k in a well-formed list. */
  function Next(s: seq<Item>, k: nat): Item?
    requires k < |s|
  {
    if k + 1 < |s| then s[k + 1] else null
  }

  function Prev(s: seq<Item>, k: nat): Item?
    requires k < |s|
  {
    if k > 0 then s[k - 1] else s[|s| - 1]
  }

  lemma {:induction false} LinksWithout(s: seq<Item>, i: nat, k: nat)
    requires i < |s| && k < |s| - 1
    ensures
      var t := s[..i] + s[i + 1..];
      var j := if k < i then k else k + 1;
      && t[k] == s[j]
      && Next(t, k) == (if j + 1 == i then Next(s, i) else Next(s, j))
      && Prev(t, k) == (if j == i + 1 || (j == 0 && i == |s| - 1) then Prev(s, i) else Prev(s, j))
  {
  }

  lemma {:induction false} LinksInserted(s: seq<Item>, w: nat, x: Item, k: nat)
    requires w < |s| && k <= |s|
    ensures
      var t := s[..w] + [x] + s[w..];
      if k == w then t[k] == x && Next(t, k) == s[w] && Prev(t, k) == Prev(s, w)
      else
        var j := if k < w then k else k - 1;
        && t[k] == s[j]
        && Next(t, k) == (if j + 1 == w then x else Next(s, j))
        && Prev(t, k) == (if j == w then x else Prev(s, j))
  {
  }

  lemma {:induction false} LinksReplaced(s: seq<Item>, i: nat, x: Item, k: nat)
    requires i < |s| && k < |s|
    ensures
      var t := s[i := x];
      && Next(t, k) == (if k + 1 == i then x else Next(s, k))
      && Prev(t, k) == (if k == i + 1 || (k == 0 && i == |s| - 1) then x else Prev(s, k))
  {
  }

  class Item {
    var prev: Item?
    var next: Item?
    var child: Item?

    /** The children in order. */
    ghost var items: seq<Item>

    /** cJSON_New_Item: all fields zero. */
    constructor ()
      ensures Valid() && items == [] && prev == null && next == null
    {
      prev, next, child := null, null, null;
      items := [];
    }

    ghost function Nodes(): set<Item>
      reads this
    {
      set x | x in items
    }

    /** next leads to the next sibling or ends; prev leads back, from the head to the tail. */
    ghost predicate Linked(i: nat)
      requires i < |items|
      reads this, items[i]
    {
      items[i].next == Next(items, i) && items[i].prev == Prev(items, i)
    }

    /** child is the head, every node is linked, no node occurs twice, and the parent is not among them. */
    ghost predicate Valid()
      reads this, Nodes()
    {
      && this !in items
      && (forall i, j | 0 <= i < j < |items| :: items[i] != items[j])
      && child == (if items == [] then null else items[0])
      && (forall i | 0 <= i < |items| :: Linked(i))
    }

    /** cJSON_GetArraySize. */
    method GetArraySize() returns (size: nat)
      requires Valid()
      ensures size == |items|
    {
      size := 0;
      var current := child;
      while current != null
        invariant size <= |items| && current == (if size < |items| then items[size] else null)
        decreases |items| - size
      {
        assert Linked(size);
        size := size + 1;
        current := current.next;
      }
    }

    /** get_array_item. */
    method GetItem(index: nat) returns (item: Item?)
      requires Valid()
      ensures item == if index < |items| then items[index] else null
    {
      var left := index;
      ghost var k: nat := 0;
      item := child;
      while item != null && left > 0
        invariant 0 <= left && left + k == index && k <= |items|
        invariant item == (if k < |items| then items[k] else null)
        decreases left
      {
        assert Linked(k);
        left := left - 1;
        k := k + 1;
        item := item.next;
      }
    }

    /** add_item_to_array. An item appended to a non-empty list keeps its own next, so the list stays
        well formed exactly if that is null. */
    method AddItem(item: Item?) returns (ok: bool)
      requires Valid()
      requires item != null && item != this ==> item !in items
      modifies this, Nodes(), item
      ensures ok <==> item != null && item != this
      ensures items == if ok then old(items) + [item] else old(items)
      ensures Valid() <==> !ok || old(items) == [] || old(item.next) == null
    {
      if item == null || item == this { return false; }
      assert items != [] ==> Linked(0) && Linked(|items| - 1);
      if child == null {
        child := item;
        item.prev := item;
        item.next := null;
      } else if child.prev != null {
        child.prev.next := item;
        item.prev := child.prev;
        child.prev := item;
      }
      items := items + [item];
      if old(items) == [] || old(item.next) == null {
        forall k: nat | k < |items|
          ensures Linked(k)
        {
          if k + 1 < |items| { assert old(Linked(k)); }
        }
      } else {
        assert !Linked(|items| - 1);
      }
      return true;
    }

    /** cJSON_DetachItemViaPointer. The item is one of the children, or linked nowhere. */
    method DetachItem(item: Item?) returns (detached: Item?, ghost at: nat)
      requires Valid()
      requires item != null ==> item in items || (item.prev == null && item != child)
      modifies this, Nodes(), item
      ensures detached == if item != null && item in old(items) then item else null
      ensures Valid()
      ensures detached != null ==> detached.prev == null && detached.next == null
      ensures detached != null ==>
          at < |old(items)| && old(items)[at] == item && items == old(items)[..at] + old(items)[at + 1..]
      ensures detached == null ==> items == old(items)
    {
      if item != null && item in items {
        ghost var j: nat :| j < |items| && items[j] == item;
        assert Linked(j);
        at := j;
      } else {
        at := 0;
      }
      if item == null || (item != child && item.prev == null) { return null, at; }
      Unlink(item, at);
      return item, at;
    }

    /** The pointer changes of a detachment. */
    method Unlink(item: Item, ghost i: nat)
      requires Valid() && i < |items| && items[i] == item
      modifies this, Nodes()
      ensures Valid() && items == old(items)[..i] + old(items)[i + 1..] && item.prev == null && item.next == null
    {
      assert Linked(i) && Linked(0) && (i > 0 ==> Linked(i - 1)) && (i + 1 < |items| ==> Linked(i + 1))
          && Linked(|items| - 1);
      if item != child {
        item.prev.next := item.next;
      }
      if item.next != null {
        item.next.prev := item.prev;
      }
      if item == child {
        child := item.next;
      } else if item.next == null {
        child.prev := item.prev;
      }
      item.prev := null;
      item.next := null;
      ghost var s := items;
      items := items[..i] + items[i + 1..];
      forall k: nat | k < |items|
        ensures Linked(k)
      {
        LinksWithout(s, i, k);
        assert old(Linked(if k < i then k else k + 1));
      }
    }

    method DetachItemFromArray(which: int) returns (detached: Item?)
      requires Valid()
      modifies this, Nodes()
      ensures Valid()
      ensures detached == if 0 <= which < |old(items)| then old(items)[which] else null
      ensures items == if 0 <= which < |old(items)| then old(items)[..which] + old(items)[which + 1..] else old(items)
    {
      if which < 0 { return null; }
      var item := GetItem(which);
      ghost var at;
      detached, at := DetachItem(item);
    }

    /** cJSON_InsertItemInArray. Beyond the end it appends, with what that says about the item's next. */
    method InsertItem(which: int, newitem: Item?) returns (ok: bool)
      requires Valid()
      requires newitem != null ==> newitem !in items && (newitem == this ==> which < 0 || which >= |items|)
      modifies this, Nodes(), newitem
      ensures ok <==> which >= 0 && newitem != null && newitem != this
      ensures Valid() <==> !ok || which < |old(items)| || old(items) == [] || old(newitem.next) == null
      ensures items ==
        if !ok then old(items)
        else if which < |old(items)| then old(items)[..which] + [newitem] + old(items)[which..]
        else old(items) + [newitem]
    {
      if which < 0 || newitem == null { return false; }
      var after := GetItem(which);
      if after == null {
        ok := AddItem(newitem);
        return;
      }
      assert Linked(which) && Linked(0) && (which > 0 ==> Linked(which - 1)) && Linked(|items| - 1);
      if after != child && after.prev == null { return false; }
      newitem.next := after;
      newitem.prev := after.prev;
      after.prev := newitem;
      if after == child {
        child := newitem;
      } else {
        newitem.prev.next := newitem;
      }
      ghost var s := items;
      items := items[..which] + [newitem] + items[which..];
      forall k: nat | k < |items|
        ensures Linked(k)
      {
        LinksInserted(s, which, newitem, k);
        if k != which { assert old(Linked(if k < which then k else k - 1)); }
      }
      return true;
    }

    /** cJSON_ReplaceItemViaPointer, without the deletion of the item that left. */
    method ReplaceItem(item: Item?, replacement: Item?) returns (ok: bool)
      requires Valid()
      requires item != null ==> item in items
      requires replacement != null && replacement != item ==> replacement != this && replacement !in items
      modifies this, Nodes(), replacement
      ensures ok <==> old(items) != [] && replacement != null && item != null
      ensures Valid() && |items| == |old(items)|
      ensures forall i | 0 <= i < |items| ::
          items[i] == if ok && old(items)[i] == item then replacement else old(items)[i]
      ensures ok && replacement != item ==> item.next == null && item.prev == null
    {
      if child == null || replacement == null || item == null { return false; }
      if replacement == item { return true; }
      ghost var i: nat :| i < |items| && items[i] == item;
      Relink(item, replacement, i);
      return true;
    }

    /** The pointer changes of a replacement. */
    method Relink(item: Item, replacement: Item, ghost i: nat)
      requires Valid() && i < |items| && items[i] == item && replacement != this && replacement !in items
      modifies this, Nodes(), replacement
      ensures Valid() && items == old(items)[i := replacement] && item.next == null && item.prev == null
    {
      assert Linked(i) && Linked(0) && (i > 0 ==> Linked(i - 1)) && (i + 1 < |items| ==> Linked(i + 1))
          && Linked(|items| - 1);
      replacement.next := item.next;
      replacement.prev := item.prev;
      if replacement.next != null {
        replacement.next.prev := replacement;
      }
      if child == item {
        if child.prev == child {
          replacement.prev := replacement;
        }
        child := replacement;
      } else {
        if replacement.prev != null {
          replacement.prev.next := replacement;
        }
        if replacement.next == null {
          child.prev := replacement;
        }
      }
      item.next := null;
      item.prev := null;
      ghost var s := items;
      items := items[i := replacement];
      forall k: nat | k < |items|
        ensures Linked(k)
      {
        LinksReplaced(s, i, replacement, k);
        assert old(Linked(k));
      }
    }

    method ReplaceItemInArray(which: int, newitem: Item?) returns (ok: bool)
      requires Valid()
      requires newitem != null ==> newitem != this && newitem !in items
      modifies this, Nodes(), newitem
      ensures Valid()
      ensures ok <==> newitem != null && 0 <= which < |old(items)|
      ensures items == if ok then old(items)[which := newitem] else old(items)
    {
      if which < 0 { return false; }
      var item := GetItem(which);
      ok := ReplaceItem(item, newitem);
      if ok { assert items == old(items)[which := newitem]; }
    }
  }
}
