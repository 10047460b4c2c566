/** Little-endian fields laid out in a buffer that starts as zeros. */
module Bytes {

  type Byte = b: int | 0 <= b < 0x100

  /** A number packed in a number of bytes. */
  datatype Item = Item(size: nat, value: nat)
  datatype Field = Field(at: nat, bytes: seq<Byte>)

  function Power(size: nat): (p: nat)
    ensures p > 0
  {
    if size == 0 then 1 else 0x100 * Power(size - 1)
  }

  predicate Fits(item: Item) {
    item.value < Power(item.size)
  }

  function Packed(size: nat, value: nat): (s: seq<Byte>)
    ensures |s| == size
  {
    if size == 0 then [] else [value % 0x100] + Packed(size - 1, value / 0x100)
  }

  function Unpacked(s: seq<Byte>): nat {
    if s == [] then 0 else s[0] + 0x100 * Unpacked(s[1..])
  }

  lemma {:induction false} UnpackedPacked(size: nat, value: nat)
    requires value < Power(size)
    ensures Unpacked(Packed(size, value)) == value
  {
    if size > 0 {
      assert Packed(size, value)[1..] == Packed(size - 1, value / 0x100);
      UnpackedPacked(size - 1, value / 0x100);
    }
  }

  function Zeros(n: nat): (s: seq<Byte>)
    ensures |s| == n
  {
    seq(n, _ => 0)
  }

  /** A buffer written up to some place, with a field further on. */
  function With(done: seq<Byte>, f: Field): seq<Byte>
    requires |done| <= f.at
  {
    done + Zeros(f.at - |done|) + f.bytes
  }

  predicate Apart(fields: seq<Field>) {
    forall i :: 0 < i < |fields| ==> fields[i - 1].at + |fields[i - 1].bytes| <= fields[i].at
  }

  function End(fields: seq<Field>): nat {
    if fields == [] then 0 else fields[|fields| - 1].at + |fields[|fields| - 1].bytes|
  }

  /** Fields in order of their place, with zeros between. */
  function Laid(fields: seq<Field>): (s: seq<Byte>)
    requires Apart(fields)
    ensures |s| == End(fields)
  {
    if fields == [] then [] else With(Laid(fields[..|fields| - 1]), fields[|fields| - 1])
  }

  ghost predicate Holds(s: seq<Byte>, f: Field) {
    f.at + |f.bytes| <= |s| && s[f.at..f.at + |f.bytes|] == f.bytes
  }

  lemma {:induction false} LaidHolds(fields: seq<Field>, k: nat)
    requires Apart(fields) && k < |fields|
    ensures Holds(Laid(fields), fields[k])
  {
    var last := |fields| - 1;
    if k < last {
      LaidHolds(fields[..last], k);
      WithHolds(Laid(fields[..last]), fields[last], fields[k]);
    }
  }

  lemma WithHolds(done: seq<Byte>, f: Field, held: Field)
    requires |done| <= f.at && Holds(done, held)
    ensures Holds(With(done, f), held)
  {
    assert With(done, f)[..|done|] == done;
    assert With(done, f)[held.at..held.at + |held.bytes|] == done[held.at..held.at + |held.bytes|];
  }

  lemma HoldsWithin(s: seq<Byte>, outer: Field, inner: Field)
    requires Holds(s, outer) && Holds(outer.bytes, inner)
    ensures Holds(s, Field(outer.at + inner.at, inner.bytes))
  {
    var from := outer.at + inner.at;
    forall k | 0 <= k < |inner.bytes| ensures s[from + k] == inner.bytes[k] {
      assert s[from + k] == outer.bytes[inner.at + k];
      assert inner.bytes[k] == outer.bytes[inner.at..inner.at + |inner.bytes|][k];
    }
  }

  /** A record of several numbers, one after the other. */
  function FieldsAt(at: nat, items: seq<Item>): (f: seq<Field>)
    ensures |f| == |items|
  {
    if items == [] then []
    else
      var last := |items| - 1;
      FieldsAt(at, items[..last]) + [Field(at + Width(items[..last]), Packed(items[last].size, items[last].value))]
  }

  function Width(items: seq<Item>): nat {
    if items == [] then 0 else Width(items[..|items| - 1]) + items[|items| - 1].size
  }

  lemma ApartJoin(a: seq<Field>, b: seq<Field>)
    requires Apart(a) && Apart(b) && b != [] && End(a) <= b[0].at
    ensures Apart(a + b) && End(a + b) == End(b)
  {}

  // ----- writing in place -----

  /** What is written of a buffer, and nothing after it. */
  ghost predicate Written(s: seq<Byte>, fields: seq<Field>) {
    Apart(fields) && End(fields) <= |s| && s == Laid(fields) + Zeros(|s| - End(fields))
  }

  method Put(a: array<Byte>, ghost fields: seq<Field>, at: nat, bytes: seq<Byte>)
    requires Written(a[..], fields) && End(fields) <= at && at + |bytes| <= a.Length
    modifies a
    ensures Written(a[..], fields + [Field(at, bytes)])
  {
    for i := 0 to |bytes|
      invariant forall k :: 0 <= k < a.Length ==>
                  a[k] == if at <= k < at + i then bytes[k - at] else old(a[k])
    {
      a[at + i] := bytes[i];
    }
    PutWrites(old(a[..]), a[..], fields, Field(at, bytes));
  }

  lemma PutWrites(before: seq<Byte>, after: seq<Byte>, fields: seq<Field>, f: Field)
    requires Written(before, fields) && End(fields) <= f.at && f.at + |f.bytes| <= |before| == |after|
    requires forall k :: 0 <= k < |after| ==>
               after[k] == if f.at <= k < f.at + |f.bytes| then f.bytes[k - f.at] else before[k]
    ensures Written(after, fields + [f])
  {
    var now := fields + [f];
    assert now[..|fields|] == fields;
    var done := Laid(fields);
    assert Apart(now) && End(now) == f.at + |f.bytes|;
    assert Laid(now) == With(done, f);
    assert after == With(done, f) + Zeros(|after| - End(now));
  }

  /** Packs numbers one after the other from a place on. */
  method Pack(a: array<Byte>, ghost fields: seq<Field>, at: nat, items: seq<Item>)
    requires Written(a[..], fields) && End(fields) <= at && at + Width(items) <= a.Length && items != []
    requires forall i :: 0 <= i < |items| ==> Fits(items[i])
    modifies a
    ensures Written(a[..], fields + FieldsAt(at, items))
    ensures End(fields + FieldsAt(at, items)) == at + Width(items)
  {
    hide Written, Laid;
    var place := at;
    assert fields + FieldsAt(at, items[..0]) == fields;
    for i := 0 to |items|
      invariant Written(a[..], fields + FieldsAt(at, items[..i]))
      invariant place == at + Width(items[..i]) && End(fields + FieldsAt(at, items[..i])) <= place
    {
      var item := items[i];
      assert items[..i + 1][..i] == items[..i];
      WidthGrows(items, i + 1);
      Put(a, fields + FieldsAt(at, items[..i]), place, Packed(item.size, item.value));
      assert fields + FieldsAt(at, items[..i + 1]) ==
             fields + FieldsAt(at, items[..i]) + [Field(place, Packed(item.size, item.value))];
      place := place + item.size;
    }
    assert items[..|items|] == items;
    WrittenApart(a[..], fields + FieldsAt(at, items));
  }

  lemma WrittenApart(s: seq<Byte>, fields: seq<Field>)
    requires Written(s, fields)
    ensures Apart(fields)
  {}

  lemma {:induction false} WidthGrows(items: seq<Item>, i: nat)
    requires i <= |items|
    ensures Width(items[..i]) <= Width(items)
  {
    if i < |items| {
      WidthGrows(items[..|items| - 1], i);
      assert items[..|items| - 1][..i] == items[..i];
    } else {
      assert items[..i] == items;
    }
  }

  // ----- records of a few numbers -----

  function F(at: nat, item: Item): Field {
    Field(at, Packed(item.size, item.value))
  }

  lemma FieldsNext(at: nat, items: seq<Item>, item: Item)
    ensures FieldsAt(at, items + [item]) == FieldsAt(at, items) + [F(at + Width(items), item)]
    ensures Width(items + [item]) == Width(items) + item.size
  {
    hide Packed;
    assert (items + [item])[..|items|] == items;
  }

  lemma Fields1(at: nat, a: Item)
    ensures FieldsAt(at, [a]) == [F(at, a)] && Width([a]) == a.size
  {
    hide Packed;
    FieldsNext(at, [], a);
    assert [] + [a] == [a];
  }

  lemma Fields2(at: nat, a: Item, b: Item)
    ensures FieldsAt(at, [a, b]) == [F(at, a), F(at + a.size, b)] && Width([a, b]) == a.size + b.size
  {
    hide Packed;
    Fields1(at, a);
    FieldsNext(at, [a], b);
    assert [a] + [b] == [a, b];
  }

  lemma Fields3(at: nat, a: Item, b: Item, c: Item)
    ensures FieldsAt(at, [a, b, c]) == [F(at, a), F(at + a.size, b), F(at + a.size + b.size, c)]
    ensures Width([a, b, c]) == a.size + b.size + c.size
  {
    hide Packed;
    Fields2(at, a, b);
    FieldsNext(at, [a, b], c);
    assert [a, b] + [c] == [a, b, c];
  }

  lemma Fields4(at: nat, a: Item, b: Item, c: Item, d: Item)
    ensures FieldsAt(at, [a, b, c, d]) ==
            [F(at, a), F(at + a.size, b), F(at + a.size + b.size, c), F(at + a.size + b.size + c.size, d)]
    ensures Width([a, b, c, d]) == a.size + b.size + c.size + d.size
  {
    hide Packed;
    Fields3(at, a, b, c);
    FieldsNext(at, [a, b, c], d);
    assert [a, b, c] + [d] == [a, b, c, d];
  }

  lemma NoFields(at: nat)
    ensures FieldsAt(at, []) == [] && Width([]) == 0
  {}

  lemma {:induction false} FieldsJoin(at: nat, a: seq<Item>, b: seq<Item>)
    ensures FieldsAt(at, a + b) == FieldsAt(at, a) + FieldsAt(at + Width(a), b) && Width(a + b) == Width(a) + Width(b)
  {
    hide Packed, FieldsAt, Width, F;
    if b == [] {
      assert a + b == a;
      NoFields(at + Width(a));
    } else {
      var last := |b| - 1;
      var init, item := b[..last], b[last];
      FieldsJoin(at, a, init);
      assert b == init + [item] && a + b == (a + init) + [item];
      FieldsNext(at, a + init, item);
      FieldsNext(at + Width(a), init, item);
    }
  }
}
