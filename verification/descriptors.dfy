/** `serializeAppleEventDescriptor` of AppleScriptBridge.swift: the conversion of an Apple
    event descriptor tree, the result of running a script, into plain values for the
    JavaScript side. A descriptor's items are 1-based in Apple's API; here they are a
    0-based sequence, and an item or keyword that the API returns as nil is `None`. */
module Descriptors {
  import opened Common

  newtype Int32 = x: int | -0x8000_0000 <= x < 0x8000_0000

  datatype Field = Field(keyword: Option<string>, item: Option<Descriptor>)

  datatype Descriptor =
    | Text(stringValue: Option<string>)
    | Integer(int32Value: Int32)
    | Boolean(booleanValue: bool)
    | List(items: seq<Option<Descriptor>>)
    | Record(fields: seq<Field>)
    /** any other descriptor type; only its string value is used */
    | Other(otherString: Option<string>)

  /** `stringValue ?? ""` */
  function StringOrEmpty(s: Option<string>): string {
    if s.Some? then s.value else ""
  }

  /** The serialisation of every descriptor type, with the loops over list and record items
      taken over their whole range. */
  function Serialize(d: Descriptor): (r: Value)
    ensures r.VString? <==> d.Text? || d.Other?
    ensures r.VInt? <==> d.Integer?
    ensures r.VBool? <==> d.Boolean?
    ensures r.VArray? <==> d.List?
    ensures r.VDict? <==> d.Record?
    ensures d.List? ==> |r.elems| <= |d.items|
    decreases d
  {
    match d
    case Text(s) => VString(StringOrEmpty(s))
    case Integer(n) => VInt(n as int)
    case Boolean(b) => VBool(b)
    case List(items) => VArray(SerializeItems(d, |items|))
    case Record(fields) => VDict(SerializeFields(d, |fields|))
    case Other(s) => VString(StringOrEmpty(s))
  }

  /** The array built by the list loop after its first `n` items: nil items are skipped. */
  function SerializeItems(d: Descriptor, n: nat): (r: seq<Value>)
    requires d.List? && n <= |d.items|
    ensures |r| <= n
    decreases d, n
  {
    if n == 0 then []
    else
      var item := d.items[n - 1];
      var before := SerializeItems(d, n - 1);
      if item.Some? then
        assert item.value < item < d;
        before + [Serialize(item.value)]
      else before
  }

  /** The dictionary built by the record loop after its first `n` fields: a field whose
      keyword or item is nil is skipped, and a later keyword overwrites an earlier one. */
  function SerializeFields(d: Descriptor, n: nat): (r: map<string, Value>)
    requires d.Record? && n <= |d.fields|
    ensures forall k :: k in r ==> exists i :: 0 <= i < n && d.fields[i].keyword == Some(k)
    decreases d, n
  {
    if n == 0 then map[]
    else
      var f := d.fields[n - 1];
      var before := SerializeFields(d, n - 1);
      if f.keyword.Some? && f.item.Some? then
        assert f.item.value < f.item < f < d;
        before[f.keyword.value := Serialize(f.item.value)]
      else before
  }

  /** The non-nil items of a list, in index order. */
  function Present(items: seq<Option<Descriptor>>): (r: seq<Descriptor>)
    ensures |r| <= |items|
  {
    if items == [] then []
    else if items[0].Some? then [items[0].value] + Present(items[1..])
    else Present(items[1..])
  }

  lemma {:induction false} PresentAppend(items: seq<Option<Descriptor>>, x: Option<Descriptor>)
    ensures Present(items + [x]) == Present(items) + (if x.Some? then [x.value] else [])
  {
    if items == [] {
      assert [] + [x] == [x];
    } else {
      assert (items + [x])[1..] == items[1..] + [x];
      PresentAppend(items[1..], x);
    }
  }

  /** A list serialises to the serialisations of its non-nil items, in index order. */
  lemma {:induction false} ListKeepsPresentItemsInOrder(d: Descriptor, n: nat)
    requires d.List? && n <= |d.items|
    ensures var present := Present(d.items[..n]);
      && |SerializeItems(d, n)| == |present|
      && forall i :: 0 <= i < |present| ==> SerializeItems(d, n)[i] == Serialize(present[i])
  {
    if n > 0 {
      ListKeepsPresentItemsInOrder(d, n - 1);
      assert d.items[..n] == d.items[..n - 1] + [d.items[n - 1]];
      PresentAppend(d.items[..n - 1], d.items[n - 1]);
    }
  }

  /** The index of the last field among the first `n` with keyword `key` and an item. */
  predicate IsLastFieldFor(fields: seq<Field>, n: nat, key: string, i: nat)
    requires n <= |fields|
  {
    && i < n
    && fields[i].keyword == Some(key) && fields[i].item.Some?
    && forall j :: i < j < n ==> !(fields[j].keyword == Some(key) && fields[j].item.Some?)
  }

  /** A record serialises to a dictionary holding exactly the keywords of its complete fields,
      each bound to the serialisation of the last field carrying it. */
  lemma RecordLastFieldWins(d: Descriptor, n: nat, key: string)
    requires d.Record? && n <= |d.fields|
    ensures key in SerializeFields(d, n) <==>
      exists i :: 0 <= i < n && d.fields[i].keyword == Some(key) && d.fields[i].item.Some?
    ensures forall i :: 0 <= i < n && IsLastFieldFor(d.fields, n, key, i) ==>
      key in SerializeFields(d, n) && SerializeFields(d, n)[key] == Serialize(d.fields[i].item.value)
  {
    RecordKeys(d, n, key);
    forall i | 0 <= i < n && IsLastFieldFor(d.fields, n, key, i)
      ensures key in SerializeFields(d, n) && SerializeFields(d, n)[key] == Serialize(d.fields[i].item.value)
    {
      RecordLastField(d, n, key, i);
    }
  }

  lemma {:induction false} RecordKeys(d: Descriptor, n: nat, key: string)
    requires d.Record? && n <= |d.fields|
    ensures key in SerializeFields(d, n) <==>
      exists i :: 0 <= i < n && d.fields[i].keyword == Some(key) && d.fields[i].item.Some?
  {
    if n > 0 {
      RecordKeys(d, n - 1, key);
      var f := d.fields[n - 1];
      if f.keyword == Some(key) && f.item.Some? {
        assert key in SerializeFields(d, n);
      } else {
        assert key in SerializeFields(d, n) <==> key in SerializeFields(d, n - 1);
        if exists i :: 0 <= i < n && d.fields[i].keyword == Some(key) && d.fields[i].item.Some? {
          var i :| 0 <= i < n && d.fields[i].keyword == Some(key) && d.fields[i].item.Some?;
          assert i < n - 1;
        }
      }
    }
  }

  lemma {:induction false} RecordLastField(d: Descriptor, n: nat, key: string, i: nat)
    requires d.Record? && n <= |d.fields| && IsLastFieldFor(d.fields, n, key, i)
    ensures key in SerializeFields(d, n) && SerializeFields(d, n)[key] == Serialize(d.fields[i].item.value)
  {
    var f := d.fields[n - 1];
    if i < n - 1 {
      assert !(f.keyword == Some(key) && f.item.Some?);
      assert IsLastFieldFor(d.fields, n - 1, key, i);
      RecordLastField(d, n - 1, key, i);
      assert key in SerializeFields(d, n) <==> key in SerializeFields(d, n - 1);
    }
  }

  /** As written, the loops run over `1...numberOfItems`, and a closed range whose upper
      bound is below its lower bound traps: serialising a list or record with no items stops
      the program instead of producing an empty array or dictionary. `None` is that trap. */
  function SerializeAsWritten(d: Descriptor): (r: Option<Value>)
    ensures r.Some? ==> r.value == Serialize(d)
    ensures (d.List? && d.items == []) || (d.Record? && d.fields == []) ==> r.None?
    decreases d
  {
    match d
    case Text(s) => Some(VString(StringOrEmpty(s)))
    case Integer(n) => Some(VInt(n as int))
    case Boolean(b) => Some(VBool(b))
    case List(items) =>
      if |items| < 1 then None
      else
        var r := ItemsAsWritten(d, |items|);
        if r.Some? then Some(VArray(r.value)) else None
    case Record(fields) =>
      if |fields| < 1 then None
      else
        var r := FieldsAsWritten(d, |fields|);
        if r.Some? then Some(VDict(r.value)) else None
    case Other(s) => Some(VString(StringOrEmpty(s)))
  }

  function ItemsAsWritten(d: Descriptor, n: nat): (r: Option<seq<Value>>)
    requires d.List? && n <= |d.items|
    ensures r.Some? ==> r.value == SerializeItems(d, n)
    decreases d, n
  {
    if n == 0 then Some([])
    else
      var item := d.items[n - 1];
      var before := ItemsAsWritten(d, n - 1);
      if before.None? then None
      else if item.Some? then
        assert item.value < item < d;
        var v := SerializeAsWritten(item.value);
        if v.Some? then Some(before.value + [v.value]) else None
      else before
  }

  function FieldsAsWritten(d: Descriptor, n: nat): (r: Option<map<string, Value>>)
    requires d.Record? && n <= |d.fields|
    ensures r.Some? ==> r.value == SerializeFields(d, n)
    decreases d, n
  {
    if n == 0 then Some(map[])
    else
      var f := d.fields[n - 1];
      var before := FieldsAsWritten(d, n - 1);
      if before.None? then None
      else if f.keyword.Some? && f.item.Some? then
        assert f.item.value < f.item < f < d;
        var v := SerializeAsWritten(f.item.value);
        if v.Some? then Some(before.value[f.keyword.value := v.value]) else None
      else before
  }

  /** No list or record anywhere in the tree is empty. */
  predicate NoEmptyContainer(d: Descriptor)
    decreases d
  {
    match d
    case List(items) =>
      |items| > 0 && forall i :: 0 <= i < |items| && items[i].Some? ==>
        (assert items[i].value < items[i] < d; NoEmptyContainer(items[i].value))
    case Record(fields) =>
      |fields| > 0 && forall i :: 0 <= i < |fields| && fields[i].item.Some? ==>
        (assert fields[i].item.value < fields[i].item < fields[i] < d; NoEmptyContainer(fields[i].item.value))
    case _ => true
  }

  /** The counterexample: an empty list, as a script returning `{}` produces. */
  lemma EmptyListTraps()
    ensures SerializeAsWritten(List([])) == None
    ensures Serialize(List([])) == VArray([])
    ensures SerializeAsWritten(List([Some(List([]))])) == None
  {
    var inner := List([]);
    var outer := List([Some(inner)]);
    assert ItemsAsWritten(outer, 0) == Some([]);
    assert SerializeAsWritten(inner) == None;
  }

  /** Away from empty lists and records the code as written and the corrected serialisation
      agree. */
  lemma {:induction false} AsWrittenAgrees(d: Descriptor)
    requires NoEmptyContainer(d)
    ensures SerializeAsWritten(d) == Some(Serialize(d))
    decreases d, 1
  {
    match d
    case List(items) => ItemsAgree(d, |items|);
    case Record(fields) => FieldsAgree(d, |fields|);
    case _ =>
  }

  lemma {:induction false} ItemsAgree(d: Descriptor, n: nat)
    requires d.List? && n <= |d.items| && NoEmptyContainer(d)
    ensures ItemsAsWritten(d, n) == Some(SerializeItems(d, n))
    decreases d, 0, n
  {
    if n > 0 {
      ItemsAgree(d, n - 1);
      var item := d.items[n - 1];
      if item.Some? {
        assert item.value < item < d;
        AsWrittenAgrees(item.value);
      }
    }
  }

  lemma {:induction false} FieldsAgree(d: Descriptor, n: nat)
    requires d.Record? && n <= |d.fields| && NoEmptyContainer(d)
    ensures FieldsAsWritten(d, n) == Some(SerializeFields(d, n))
    decreases d, 0, n
  {
    if n > 0 {
      FieldsAgree(d, n - 1);
      var f := d.fields[n - 1];
      if f.keyword.Some? && f.item.Some? {
        assert f.item.value < f.item < f < d;
        AsWrittenAgrees(f.item.value);
      }
    }
  }
}
