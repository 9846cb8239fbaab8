/** A named set of configuration items (UPnP/Configuration.cpp), built from a
    NULL-terminated argument list and searched by name without regard to
    case. */
module Config {
  import opened Text

  datatype ValueType = TYPE_NONE | TYPE_DEFAULT_INT | TYPE_DEFAULT_STRING | TYPE_INT | TYPE_STRING

  /** An item; the value field its constructor does not set reads as 0 or
      null here. */
  datatype ConfigurationItem = ConfigurationItem(name: string, kind: ValueType, ivalue: int, svalue: Option<string>)

  /** `ConfigurationItem(name, int)`. */
  function IntItem(name: string, value: int): (item: ConfigurationItem)
    ensures item.name == name && item.kind == TYPE_DEFAULT_INT && item.ivalue == value
  {
    ConfigurationItem(name, TYPE_DEFAULT_INT, value, None)
  }

  /** `ConfigurationItem(name, const char *)`. */
  function StringItem(name: string, value: string): (item: ConfigurationItem)
    ensures item.name == name && item.kind == TYPE_DEFAULT_STRING && item.svalue == Some(value)
  {
    ConfigurationItem(name, TYPE_DEFAULT_STRING, 0, Some(value))
  }

  /** The items before the argument list's terminating NULL. */
  function ListedItems(list: seq<Option<ConfigurationItem>>): (items: seq<ConfigurationItem>)
    ensures |items| <= |list|
    ensures forall i :: 0 <= i < |items| ==> list[i] == Some(items[i])
    ensures |items| < |list| ==> list[|items|].None?
  {
    if list == [] || list[0].None? then []
    else [list[0].value] + ListedItems(list[1..])
  }

  /** The index of the first of the first `n` items whose name equals `name`
      ignoring case, as `GetItem`'s loop finds it. */
  function FindItem(items: seq<Option<ConfigurationItem>>, n: nat, name: string): (r: Option<nat>)
    requires n <= |items| && forall i :: 0 <= i < n ==> items[i].Some?
    ensures r.Some? ==>
      r.value < n && EqualsIgnoreCase(name, items[r.value].value.name)
      && (forall j :: 0 <= j < r.value ==> !EqualsIgnoreCase(name, items[j].value.name))
    ensures r.None? ==> forall j :: 0 <= j < n ==> !EqualsIgnoreCase(name, items[j].value.name)
  {
    if n == 0 then None
    else
      var r := FindItem(items, n - 1, name);
      if r.Some? then r
      else if EqualsIgnoreCase(name, items[n - 1].value.name) then Some(n - 1)
      else None
  }

  /** The first `n` slots' items. */
  function Present(slots: seq<Option<ConfigurationItem>>, n: nat): (items: seq<ConfigurationItem>)
    requires n <= |slots| && forall i :: 0 <= i < n ==> slots[i].Some?
    ensures |items| == n && forall i :: 0 <= i < n ==> slots[i] == Some(items[i])
  {
    if n == 0 then [] else Present(slots, n - 1) + [slots[n - 1].value]
  }

  /** `configured` on a found item: every type but TYPE_NONE counts. */
  predicate IsConfigured(kind: ValueType)
  {
    kind != TYPE_NONE
  }

  /** Both item constructors give a type that counts as configured. */
  lemma ConstructedItemsAreConfigured(name: string, i: int, s: string)
    ensures IsConfigured(IntItem(name, i).kind) && IsConfigured(StringItem(name, s).kind)
    ensures IntItem(name, i).kind != StringItem(name, s).kind
  {
  }

  /** The two counting and copying loops of the constructor: counts the
      items up to the NULL and copies them into a fresh array with one slot
      more, which is left empty. */
  method CopyListed(list: seq<Option<ConfigurationItem>>) returns (slots: array<Option<ConfigurationItem>>)
    requires None in list
    ensures fresh(slots) && slots.Length == |ListedItems(list)| + 1
    ensures forall i :: 0 <= i < slots.Length - 1 ==> slots[i] == list[i]
    ensures Present(slots[..], slots.Length - 1) == ListedItems(list)
  {
    var cnt := 1;
    while list[cnt - 1].Some?
      invariant 1 <= cnt <= |ListedItems(list)| + 1
      decreases |list| - cnt
    {
      cnt := cnt + 1;
    }
    slots := new Option<ConfigurationItem>[cnt](_ => None);
    var i := 0;
    while list[i].Some?
      invariant 0 <= i <= |ListedItems(list)| && i < cnt
      invariant forall j :: 0 <= j < i ==> slots[j] == list[j]
      decreases |list| - i
    {
      slots[i] := list[i];
      i := i + 1;
    }
    PresentListed(slots[..], list, i);
  }

  /** The search looks at the first `n` slots only. */
  lemma {:induction false} FindItemSamePrefix(a: seq<Option<ConfigurationItem>>, b: seq<Option<ConfigurationItem>>, n: nat, q: string)
    requires n <= |a| && n <= |b| && a[..n] == b[..n] && forall i :: 0 <= i < n ==> a[i].Some?
    ensures forall i :: 0 <= i < n ==> b[i].Some?
    ensures FindItem(a, n, q) == FindItem(b, n, q)
  {
    assert forall i :: 0 <= i < n ==> a[i] == a[..n][i] == b[..n][i] == b[i];
    if n > 0 {
      assert a[..n - 1] == a[..n][..n - 1];
      assert b[..n - 1] == b[..n][..n - 1];
      FindItemSamePrefix(a, b, n - 1, q);
    }
  }

  /** The first `m` of `n` present slots are the first `m` items. */
  lemma PresentPrefix(slots: seq<Option<ConfigurationItem>>, m: nat, n: nat)
    requires m <= n <= |slots| && forall i :: 0 <= i < n ==> slots[i].Some?
    ensures Present(slots, m) == Present(slots, n)[..m]
  {
  }

  lemma PresentListed(slots: seq<Option<ConfigurationItem>>, list: seq<Option<ConfigurationItem>>, n: nat)
    requires n == |ListedItems(list)| < |slots| && forall j :: 0 <= j < n ==> slots[j] == list[j]
    ensures Present(slots, n) == ListedItems(list)
  {
  }

  class Configuration {
    const name: string
    /** `items`: one slot per listed item and one the constructor leaves unset. */
    var items: array<Option<ConfigurationItem>>
    /** The count `GetItem` searches; the constructor as written leaves it as
        it found it. */
    var nitems: nat

    ghost predicate Valid()
      reads this, items
    {
      nitems < items.Length && forall i :: 0 <= i < items.Length - 1 ==> items[i].Some?
    }

    /** Every item stored, in order. */
    function Stored(): seq<ConfigurationItem>
      reads this, items
      requires Valid()
    {
      Present(items[..], items.Length - 1)
    }

    /** The items `GetItem` searches: the first `nitems` stored ones. */
    function Items(): seq<ConfigurationItem>
      reads this, items
      requires Valid()
    {
      Present(items[..], nitems)
    }

    /** The constructor as written: counts the items up to the NULL,
        allocates that many slots plus one and copies the items in order,
        but never assigns `nitems`, which keeps `nitemsBefore`, the value
        its storage held. A value above the item count would make `GetItem`
        read past the allocation, so the model asks for one that does not. */
    constructor (name: string, list: seq<Option<ConfigurationItem>>, nitemsBefore: nat)
      requires None in list && nitemsBefore <= |ListedItems(list)|
      ensures Valid() && this.name == name
      ensures Stored() == ListedItems(list) && nitems == nitemsBefore
    {
      this.name := name;
      nitems := nitemsBefore;
      var slots := CopyListed(list);
      items := slots;
      PresentPrefix(slots[..], nitemsBefore, slots.Length - 1);
    }

    /** The corrected constructor: the same copy, and the count stored, so
        every listed item is searched. */
    constructor Counted(name: string, list: seq<Option<ConfigurationItem>>)
      requires None in list
      ensures Valid() && this.name == name
      ensures Items() == Stored() == ListedItems(list) && nitems == |ListedItems(list)|
      ensures items[..nitems] == list[..nitems]
      ensures forall q :: FindItem(items[..], nitems, q) == FindItem(list, nitems, q)
    {
      this.name := name;
      var slots := CopyListed(list);
      items := slots;
      nitems := slots.Length - 1;
      assert slots[..slots.Length - 1] == list[..slots.Length - 1];
      ghost var copied, n := slots[..], slots.Length - 1;
      forall q: string
        ensures FindItem(copied, n, q) == FindItem(list, n, q)
      {
        FindItemSamePrefix(copied, list, n, q);
      }
    }

    /** `GetItem`: the first item whose name matches, ignoring case. */
    method GetItem(itemname: string) returns (r: Option<ConfigurationItem>)
      requires Valid()
      ensures var k := FindItem(items[..], nitems, itemname);
        r == if k.Some? then items[k.value] else None
    {
      var i := 0;
      while i < nitems
        invariant 0 <= i <= nitems
        invariant FindItem(items[..], i, itemname).None?
      {
        if EqualsIgnoreCase(itemname, items[i].value.name) {
          assert FindItem(items[..], i + 1, itemname) == Some(i);
          return items[i];
        }
        i := i + 1;
      }
      return None;
    }

    /** `GetValue`: 0 for a null name or a missing item, else the item's
        integer. */
    method GetValue(itemname: Option<string>) returns (v: int)
      requires Valid()
      ensures itemname.None? ==> v == 0
      ensures itemname.Some? ==>
        var k := FindItem(items[..], nitems, itemname.value);
        v == if k.Some? then items[k.value].value.ivalue else 0
    {
      if itemname.None? {
        return 0;
      }
      var ci := GetItem(itemname.value);
      if ci.None? {
        return 0;
      }
      return ci.value.ivalue;
    }

    /** `GetStringValue`: the source dereferences the lookup unchecked, so
        the item must exist. */
    method GetStringValue(itemname: string) returns (v: Option<string>)
      requires Valid() && FindItem(items[..], nitems, itemname).Some?
      ensures v == items[FindItem(items[..], nitems, itemname).value].value.svalue
    {
      var ci := GetItem(itemname);
      return ci.value.svalue;
    }

    /** `configured`: false for a null name, a missing item or TYPE_NONE. */
    method Configured(itemname: Option<string>) returns (b: bool)
      requires Valid()
      ensures b <==> (itemname.Some? && FindItem(items[..], nitems, itemname.value).Some?
                      && IsConfigured(items[FindItem(items[..], nitems, itemname.value).value].value.kind))
    {
      if itemname.None? {
        return false;
      }
      var i := GetItem(itemname.value);
      if i.None? {
        return false;
      }
      match i.value.kind
      case TYPE_NONE => return false;
      case TYPE_DEFAULT_INT => return true;
      case TYPE_DEFAULT_STRING => return true;
      case TYPE_INT => return true;
      case TYPE_STRING => return true;
    }
  }

  /** Items built by the corrected constructor are found by name in any
      case: the first one listed with a matching name wins. */
  lemma ListedItemIsFound(list: seq<Option<ConfigurationItem>>, k: nat, query: string)
    requires k < |ListedItems(list)| && EqualsIgnoreCase(query, ListedItems(list)[k].name)
    requires forall j :: 0 <= j < k ==> !EqualsIgnoreCase(query, ListedItems(list)[j].name)
    ensures FindItem(list, |ListedItems(list)|, query) == Some(k)
  {
  }

  // ---------------------------------------------------------------------
  // The item count as the source leaves it

  /** A configuration with static storage, built from one item by the
      constructor as written, keeps the count 0 and so does not find that
      item by its own name. */
  method StaticConfigurationFindsNothing(item: ConfigurationItem) returns (stored: seq<ConfigurationItem>, found: Option<ConfigurationItem>)
    ensures stored == [item] && found.None?
  {
    var c := new Configuration("LED", [Some(item), None], 0);
    stored := c.Stored();
    found := c.GetItem(item.name);
  }

  /** The same configuration built by the corrected constructor finds its
      item. */
  method CountedConfigurationFinds(item: ConfigurationItem) returns (stored: seq<ConfigurationItem>, found: Option<ConfigurationItem>)
    ensures stored == [item] && found == Some(item)
  {
    var c := new Configuration.Counted("LED", [Some(item), None]);
    stored := c.Stored();
    assert [Some(item), None][1..] == [None];
    assert EqualsIgnoreCase(item.name, c.Items()[0].name);
    found := c.GetItem(item.name);
  }
}
