// The tag/varint wire format of Olm messages. A decoder walks the bytes once,
// tries its known fields in a fixed order, and skips what it does not know.
module Message {
  import opened Bytes

  /** size_t holds 64 bits. */
  const SIZE_MODULUS: nat := 0x1_0000_0000_0000_0000

  // ------------------------------------------------------------------
  // Varints
  // ------------------------------------------------------------------

  /** The position behind the varint at `pos`. */
  function Skip(s: Data, pos: nat): (p: nat)
    requires pos <= |s|
    ensures pos <= p <= |s| && (pos < |s| ==> pos < p)
    decreases |s| - pos
  {
    if pos == |s| then pos else if s[pos] < 128 then pos + 1 else Skip(s, pos + 1)
  }

  /** The low seven bits of every byte, the last byte on top, in an integer of limited width. */
  function Varint(s: Data, from: nat, upto: nat, modulus: nat): (v: nat)
    requires from <= upto <= |s| && modulus > 0
    ensures v < modulus
    decreases upto - from
  {
    if from == upto then 0 else Shifted(Varint(s, from + 1, upto, modulus), s[from], modulus)
  }

  /** Seven more bits at the low end of an integer of limited width. */
  function Shifted(v: nat, b: byte, modulus: nat): (w: nat)
    requires modulus > 0
    ensures w < modulus
  {
    (v * 128 + b % 128) % modulus
  }

  function VarintBytes(n: nat): (v: Data)
    ensures |v| > 0
  {
    if n < 128 then [n] else [n % 128 + 128] + VarintBytes(n / 128)
  }

  predicate WholeVarint(v: Data) {
    |v| > 0 && v[|v| - 1] < 128 && forall i :: 0 <= i < |v| - 1 ==> v[i] >= 128
  }

  lemma {:induction false} VarintBytesWhole(n: nat)
    ensures WholeVarint(VarintBytes(n))
  {
    if n < 128 {
    } else {
      VarintBytesWhole(n / 128);
    }
  }

  /** A varint reads the same wherever it stands. */
  lemma {:induction false} VarintMoved(s: Data, from: nat, upto: nat, t: Data, at: nat, modulus: nat)
    requires from <= upto <= |s| && at + (upto - from) <= |t| && modulus > 0
    requires s[from..upto] == t[at..at + (upto - from)]
    ensures Varint(s, from, upto, modulus) == Varint(t, at, at + (upto - from), modulus)
    decreases upto - from
  {
    hide Shifted;
    if from == upto {
    } else {
      assert s[from] == s[from..upto][0] == t[at..at + (upto - from)][0] == t[at];
      assert s[from + 1..upto] == s[from..upto][1..] == t[at..at + (upto - from)][1..] == t[at + 1..at + (upto - from)];
      VarintMoved(s, from + 1, upto, t, at + 1, modulus);
    }
  }

  /** Decoding a varint undoes encoding it, for every value that fits. */
  lemma {:induction false} VarintUndone(n: nat, modulus: nat)
    requires n < modulus
    ensures Varint(VarintBytes(n), 0, |VarintBytes(n)|, modulus) == n
  {
    hide Shifted;
    var v := VarintBytes(n);
    ShiftedBack(n, modulus);
    if n >= 128 {
      var rest := VarintBytes(n / 128);
      VarintUndone(n / 128, modulus);
      VarintMoved(v, 1, |v|, rest, 0, modulus);
    } else {
      assert Varint(v, 1, 1, modulus) == 0;
    }
  }

  lemma ShiftedBack(n: nat, modulus: nat)
    requires n < modulus
    ensures Shifted(n / 128, n % 128, modulus) == n && Shifted(n / 128, n % 128 + 128, modulus) == n
  {
    assert n / 128 * 128 + n % 128 == n;
    SmallMod(n, modulus);
  }

  lemma SmallMod(n: nat, modulus: nat)
    requires n < modulus
    ensures n % modulus == n
  {
  }

  lemma {:induction false} SkipWhole(s: Data, pos: nat, v: Data)
    requires WholeVarint(v) && pos + |v| <= |s| && s[pos..pos + |v|] == v
    ensures Skip(s, pos) == pos + |v|
    decreases |v|
  {
    assert s[pos] == v[0];
    if |v| == 1 {
    } else {
      assert s[pos + 1..pos + |v|] == v[1..];
      SkipWhole(s, pos + 1, v[1..]);
    }
  }

  // ------------------------------------------------------------------
  // Fields
  // ------------------------------------------------------------------

  datatype Kind = ByteString | Integer

  datatype Field = Field(tag: byte, kind: Kind)

  /** What a reader knows about a field: a slice of the input, or a number. */
  datatype Value = Absent | Slice(start: nat, length: nat) | Number(n: uint32)

  /** `decode_bytes`, with the value it leaves. */
  function DecodeBytes(s: Data, pos: nat, tag: byte, old_: Value): (r: (nat, Value))
    requires pos <= |s|
    ensures pos <= r.0 <= |s|
    ensures r.1 == old_ || (r.1.Slice? && r.1.start + r.1.length == r.0)
  {
    if pos == |s| || s[pos] != tag then (pos, old_)
    else
      var start := Skip(s, pos + 1);
      var length := Varint(s, pos + 1, start, SIZE_MODULUS);
      if length > |s| - start then (|s|, old_) else (start + length, Slice(start, length))
  }

  /** `decode_uint32`. */
  function DecodeUint32(s: Data, pos: nat, tag: byte, old_: Value): (r: (nat, Value))
    requires pos <= |s|
    ensures pos <= r.0 <= |s|
    ensures r.1 == old_ || r.1.Number?
  {
    if pos == |s| || s[pos] != tag then (pos, old_)
    else
      var next := Skip(s, pos + 1);
      (next, Number(Varint(s, pos + 1, next, MODULUS)))
  }

  function DecodeField(s: Data, pos: nat, f: Field, old_: Value): (r: (nat, Value))
    requires pos <= |s|
    ensures pos <= r.0 <= |s|
  {
    if f.kind == ByteString then DecodeBytes(s, pos, f.tag, old_) else DecodeUint32(s, pos, f.tag, old_)
  }

  /** `skip_unknown`: always forward. */
  function SkipUnknown(s: Data, pos: nat): (p: nat)
    requires pos <= |s|
    ensures pos <= p <= |s| && (pos < |s| ==> pos < p)
  {
    if pos == |s| then pos
    else if s[pos] % 8 == 0 then Skip(s, Skip(s, pos))
    else if s[pos] % 8 == 2 then
      var from := Skip(s, pos);
      var start := Skip(s, from);
      var length := Varint(s, from, start, SIZE_MODULUS);
      if length > |s| - start then |s| else start + length
    else |s|
  }

  /** One attempt at each known field, in order. */
  function Pass(fields: seq<Field>, s: Data, pos: nat, values: seq<Value>, i: nat): (r: (nat, seq<Value>))
    requires pos <= |s| && i <= |fields| == |values|
    ensures pos <= r.0 <= |s| && |r.1| == |fields|
    decreases |fields| - i
  {
    if i == |fields| then (pos, values)
    else
      var (next, v) := DecodeField(s, pos, fields[i], values[i]);
      Pass(fields, s, next, values[i := v], i + 1)
  }

  function DecodeLoop(fields: seq<Field>, s: Data, pos: nat, values: seq<Value>): (r: seq<Value>)
    requires pos <= |s| && |fields| == |values|
    ensures |r| == |fields|
    decreases |s| - pos
  {
    if pos == |s| then values
    else
      var (next, vs) := Pass(fields, s, pos, values, 0);
      DecodeLoop(fields, s, if next == pos then SkipUnknown(s, pos) else next, vs)
  }

  datatype Decoded = Decoded(version: byte, values: seq<Value>)

  function Nothing(fields: seq<Field>): (v: seq<Value>)
    ensures |v| == |fields|
  {
    seq(|fields|, _ => Absent)
  }

  /** A decoder reads the input without its trailer (MAC and signature). */
  function Decode(fields: seq<Field>, input: Data, trailer: nat): (d: Decoded)
    ensures |d.values| == |fields|
  {
    if |input| <= trailer then Decoded(0, Nothing(fields))
    else
      var s := input[..|input| - trailer];
      Decoded(s[0], DecodeLoop(fields, s, 1, Nothing(fields)))
  }

  // ------------------------------------------------------------------
  // Slices stay inside
  // ------------------------------------------------------------------

  predicate Inside(values: seq<Value>, length: nat) {
    forall i :: 0 <= i < |values| && values[i].Slice? ==> values[i].start + values[i].length <= length
  }

  lemma {:induction false} PassInside(fields: seq<Field>, s: Data, pos: nat, values: seq<Value>, i: nat)
    requires pos <= |s| && i <= |fields| == |values| && Inside(values, |s|)
    ensures Inside(Pass(fields, s, pos, values, i).1, |s|)
    decreases |fields| - i
  {
    if i == |fields| {
    } else {
      var (next, v) := DecodeField(s, pos, fields[i], values[i]);
      PassInside(fields, s, next, values[i := v], i + 1);
    }
  }

  lemma {:induction false} LoopInside(fields: seq<Field>, s: Data, pos: nat, values: seq<Value>)
    requires pos <= |s| && |fields| == |values| && Inside(values, |s|)
    ensures Inside(DecodeLoop(fields, s, pos, values), |s|)
    decreases |s| - pos
  {
    if pos == |s| {
    } else {
      PassInside(fields, s, pos, values, 0);
      var (next, vs) := Pass(fields, s, pos, values, 0);
      LoopInside(fields, s, if next == pos then SkipUnknown(s, pos) else next, vs);
    }
  }

  /** On every byte string, every slice lies inside the input and before its trailer. */
  lemma SlicesInside(fields: seq<Field>, input: Data, trailer: nat)
    ensures Inside(Decode(fields, input, trailer).values, if |input| < trailer then 0 else |input| - trailer)
  {
    if |input| > trailer {
      LoopInside(fields, input[..|input| - trailer], 1, Nothing(fields));
    }
  }

  // ------------------------------------------------------------------
  // Well-formed fields
  // ------------------------------------------------------------------

  /** A field on the wire: its tag, its number or length, and its bytes. */
  datatype Item = Item(tag: Data, value: Data, payload: Data)

  function TagOf(x: Item): (t: byte) {
    if x.tag == [] then 0 else x.tag[0]
  }

  /** Wire type 0 carries a number, wire type 2 as many bytes as the number says. */
  predicate WellFormed(x: Item) {
    && WholeVarint(x.tag) && WholeVarint(x.value)
    && (TagOf(x) % 8 == 0 || TagOf(x) % 8 == 2)
    && |x.payload| == if TagOf(x) % 8 == 0 then 0 else Varint(x.value, 0, |x.value|, SIZE_MODULUS)
  }

  predicate AllWellFormed(items: seq<Item>) {
    forall x :: x in items ==> WellFormed(x)
  }

  function ItemBytes(x: Item): (b: Data) {
    x.tag + x.value + x.payload
  }

  function Stream(items: seq<Item>): (b: Data) {
    if items == [] then [] else ItemBytes(items[0]) + Stream(items[1..])
  }

  /** The fields of a decoder: one-byte tags whose wire type fits, all different. */
  predicate GoodFields(fields: seq<Field>) {
    && (forall i :: 0 <= i < |fields| ==>
      fields[i].tag < 128 && fields[i].tag % 8 == if fields[i].kind == ByteString then 2 else 0)
    && (forall i, j :: 0 <= i < j < |fields| ==> fields[i].tag != fields[j].tag)
  }

  /** What an item at `pos` says about a field of its tag. */
  function ValueAt(x: Item, pos: nat): (v: Value)
    requires WellFormed(x)
  {
    if TagOf(x) % 8 == 2 then Slice(pos + |x.tag| + |x.value|, |x.payload|)
    else Number(Varint(x.value, 0, |x.value|, MODULUS))
  }

  /** Position of the field with this tag, or the number of fields. */
  function FieldOf(fields: seq<Field>, tag: byte): (i: nat)
    ensures i <= |fields| && (i < |fields| ==> fields[i].tag == tag)
    ensures forall j :: 0 <= j < i ==> fields[j].tag != tag
  {
    if fields == [] || fields[0].tag == tag then 0 else 1 + FieldOf(fields[1..], tag)
  }

  /** Reading items one by one: a known field is set, any other item changes nothing. */
  function Fold(fields: seq<Field>, items: seq<Item>, pos: nat, values: seq<Value>): (r: seq<Value>)
    requires AllWellFormed(items) && |values| == |fields|
    ensures |r| == |fields|
  {
    if items == [] then values
    else
      var x := items[0];
      var i := FieldOf(fields, TagOf(x));
      Fold(fields, items[1..], pos + |ItemBytes(x)|, if i < |fields| then values[i := ValueAt(x, pos)] else values)
  }

  /** s holds these items from `pos` to its end. */
  predicate Holds(s: Data, pos: nat, items: seq<Item>) {
    pos <= |s| && s[pos..] == Stream(items)
  }

  lemma HeldItem(s: Data, pos: nat, items: seq<Item>)
    requires Holds(s, pos, items) && items != [] && WellFormed(items[0])
    ensures var x := items[0]; var start := pos + |x.tag| + |x.value|;
      && pos < |s| && s[pos] == TagOf(x)
      && start + |x.payload| == pos + |ItemBytes(x)| <= |s|
      && s[pos..pos + |x.tag|] == x.tag
      && s[pos + |x.tag|..start] == x.value
      && s[start..start + |x.payload|] == x.payload
      && Holds(s, pos + |ItemBytes(x)|, items[1..])
  {
  }

  /** A one-byte tag is the whole tag. */
  lemma OneByteTag(x: Item)
    requires WellFormed(x) && TagOf(x) < 128
    ensures |x.tag| == 1
  {
  }

  lemma FieldTakes(s: Data, pos: nat, items: seq<Item>, f: Field, was: Value)
    requires Holds(s, pos, items) && items != [] && WellFormed(items[0]) && GoodFields([f]) && TagOf(items[0]) == f.tag
    ensures DecodeField(s, pos, f, was) == (pos + |ItemBytes(items[0])|, ValueAt(items[0], pos))
  {
    hide WholeVarint, Varint, DecodeBytes, DecodeUint32, ItemBytes, Holds;
    var x := items[0];
    HeldItem(s, pos, items);
    assert [f][0] == f;
    OneByteTag(x);
    ReadsVarint(s, pos, f.tag, x.value, was);
  }

  /** A whole varint reads the same inside a text as on its own. */
  lemma WholeReads(s: Data, pos: nat, v: Data, modulus: nat)
    requires pos + |v| <= |s| && s[pos..pos + |v|] == v && modulus > 0
    ensures Varint(s, pos, pos + |v|, modulus) == Varint(v, 0, |v|, modulus)
  {
    hide Varint;
    assert v[0..|v|] == v;
    VarintMoved(s, pos, pos + |v|, v, 0, modulus);
  }

  /** Both kinds of field at a tag with a whole varint behind it. */
  lemma ReadsVarint(s: Data, pos: nat, tag: byte, v: Data, was: Value)
    requires pos < |s| && s[pos] == tag && WholeVarint(v) && pos + 1 + |v| <= |s| && s[pos + 1..pos + 1 + |v|] == v
    ensures DecodeUint32(s, pos, tag, was) == (pos + 1 + |v|, Number(Varint(v, 0, |v|, MODULUS)))
    ensures var start, length := pos + 1 + |v|, Varint(v, 0, |v|, SIZE_MODULUS);
      length <= |s| - start ==> DecodeBytes(s, pos, tag, was) == (start + length, Slice(start, length))
  {
    hide WholeVarint, Varint, Skip;
    SkipWhole(s, pos + 1, v);
    WholeReads(s, pos + 1, v, SIZE_MODULUS);
    WholeReads(s, pos + 1, v, MODULUS);
  }

  lemma SkipTakes(s: Data, pos: nat, items: seq<Item>)
    requires Holds(s, pos, items) && items != [] && WellFormed(items[0])
    ensures SkipUnknown(s, pos) == pos + |ItemBytes(items[0])|
  {
    hide WholeVarint, Varint, Skip;
    var x := items[0];
    HeldItem(s, pos, items);
    SkipWhole(s, pos, x.tag);
    SkipWhole(s, pos + |x.tag|, x.value);
    WholeReads(s, pos + |x.tag|, x.value, SIZE_MODULUS);
  }

  /** How many items one pass takes, from field i on. */
  function Taken(fields: seq<Field>, items: seq<Item>, i: nat): (k: nat)
    requires i <= |fields| && AllWellFormed(items)
    ensures k <= |items|
    decreases |fields| - i
  {
    if i == |fields| then 0
    else if items != [] && TagOf(items[0]) == fields[i].tag then 1 + Taken(fields, items[1..], i + 1)
    else Taken(fields, items, i + 1)
  }

  /** A pass takes whole items, and folding over them is what it does. */
  lemma {:induction false} PassFolds(fields: seq<Field>, s: Data, pos: nat, items: seq<Item>, values: seq<Value>,
                                     i: nat)
    requires GoodFields(fields) && AllWellFormed(items) && Holds(s, pos, items) && i <= |fields| == |values|
    ensures var (next, vs) := Pass(fields, s, pos, values, i); var rest := items[Taken(fields, items, i)..];
      && Holds(s, next, rest)
      && Fold(fields, items, pos, values) == Fold(fields, rest, next, vs)
      && (next == pos <==> Taken(fields, items, i) == 0)
    decreases |fields| - i
  {
    hide WellFormed, WholeVarint, ItemBytes, DecodeField, ValueAt, Fold, Holds, GoodFields, TagOf;
    if i == |fields| {
      assert items[0..] == items;
    } else if items != [] && TagOf(items[0]) == fields[i].tag {
      TakesOne(fields, s, pos, items, values, i);
      var next := pos + |ItemBytes(items[0])|;
      PassFolds(fields, s, next, items[1..], values[i := ValueAt(items[0], pos)], i + 1);
      assert items[1..][Taken(fields, items[1..], i + 1)..] == items[Taken(fields, items, i)..];
      NextFurther(s, pos, items);
    } else {
      TakesNone(s, pos, items, fields[i], values[i]);
      assert values[i := values[i]] == values;
      PassFolds(fields, s, pos, items, values, i + 1);
    }
  }

  lemma NextFurther(s: Data, pos: nat, items: seq<Item>)
    requires Holds(s, pos, items) && items != [] && WellFormed(items[0])
    ensures |ItemBytes(items[0])| > 0
  {
  }

  lemma TakesNone(s: Data, pos: nat, items: seq<Item>, f: Field, was: Value)
    requires Holds(s, pos, items) && AllWellFormed(items) && (items != [] ==> TagOf(items[0]) != f.tag)
    ensures DecodeField(s, pos, f, was) == (pos, was)
  {
    hide WholeVarint, Varint, Skip;
    if items != [] {
      HeldItem(s, pos, items);
    }
  }

  lemma TakesOne(fields: seq<Field>, s: Data, pos: nat, items: seq<Item>, values: seq<Value>, i: nat)
    requires GoodFields(fields) && AllWellFormed(items) && Holds(s, pos, items) && i < |fields| == |values|
    requires items != [] && TagOf(items[0]) == fields[i].tag
    ensures var x := items[0]; var next := pos + |ItemBytes(x)|;
      && DecodeField(s, pos, fields[i], values[i]) == (next, ValueAt(x, pos))
      && Holds(s, next, items[1..]) && AllWellFormed(items[1..])
      && Fold(fields, items, pos, values) == Fold(fields, items[1..], next, values[i := ValueAt(x, pos)])
  {
    hide WellFormed, WholeVarint, ItemBytes, DecodeField, ValueAt;
    FieldTakes(s, pos, items, fields[i], values[i]);
    HeldItem(s, pos, items);
    assert FieldOf(fields, TagOf(items[0])) == i;
  }

  lemma {:induction false} TakenNone(fields: seq<Field>, items: seq<Item>, i: nat)
    requires i <= |fields| && AllWellFormed(items) && items != [] && Taken(fields, items, i) == 0
    ensures forall j :: i <= j < |fields| ==> fields[j].tag != TagOf(items[0])
    decreases |fields| - i
  {
    if i == |fields| {
    } else {
      TakenNone(fields, items, i + 1);
    }
  }

  /** The decoding loop reads the items one by one. */
  lemma {:induction false} LoopFolds(fields: seq<Field>, s: Data, pos: nat, items: seq<Item>, values: seq<Value>)
    requires GoodFields(fields) && AllWellFormed(items) && Holds(s, pos, items) && |values| == |fields|
    ensures DecodeLoop(fields, s, pos, values) == Fold(fields, items, pos, values)
    decreases |s| - pos
  {
    hide WellFormed, WholeVarint, ItemBytes, Pass, ValueAt, GoodFields, SkipUnknown;
    if items == [] {
      assert pos == |s|;
    } else {
      HeldItem(s, pos, items);
      PassFolds(fields, s, pos, items, values, 0);
      var (next, vs) := Pass(fields, s, pos, values, 0);
      var k := Taken(fields, items, 0);
      if next == pos {
        SkipTakes(s, pos, items);
        TakenNone(fields, items, 0);
        LoopFolds(fields, s, pos + |ItemBytes(items[0])|, items[1..], vs);
        assert items[0..] == items;
      } else {
        LoopFolds(fields, s, next, items[k..], vs);
      }
    }
  }

  // ------------------------------------------------------------------
  // Any order, anything in between
  // ------------------------------------------------------------------

  /** The content of a field, wherever it was found. */
  datatype View = Missing | Text(data: Data) | Count(n: uint32)

  function ViewOf(s: Data, v: Value): (w: View)
    requires v.Slice? ==> v.start + v.length <= |s|
  {
    match v
    case Absent => Missing
    case Slice(start, length) => Text(s[start..start + length])
    case Number(n) => Count(n)
  }

  function ContentOf(x: Item): (w: View)
    ensures w != Missing
  {
    if TagOf(x) % 8 == 2 then Text(x.payload) else Count(Varint(x.value, 0, |x.value|, MODULUS))
  }

  /** The content of the last item with this tag. */
  function LastOf(items: seq<Item>, tag: byte): (w: View) {
    if items == [] then Missing
    else if LastOf(items[1..], tag) != Missing then LastOf(items[1..], tag)
    else if TagOf(items[0]) == tag then ContentOf(items[0])
    else Missing
  }

  lemma ItemView(s: Data, pos: nat, items: seq<Item>)
    requires Holds(s, pos, items) && items != [] && WellFormed(items[0])
    ensures var v := ValueAt(items[0], pos);
      (v.Slice? ==> v.start + v.length <= |s|) && ViewOf(s, v) == ContentOf(items[0])
  {
  }

  lemma {:induction false} FoldViews(fields: seq<Field>, s: Data, pos: nat, items: seq<Item>, values: seq<Value>,
                                     i: nat)
    requires GoodFields(fields) && AllWellFormed(items) && Holds(s, pos, items)
    requires |values| == |fields| && Inside(values, |s|) && i < |fields|
    ensures var r := Fold(fields, items, pos, values); var last := LastOf(items, fields[i].tag);
      && Inside(r, |s|)
      && ViewOf(s, r[i]) == if last != Missing then last else ViewOf(s, values[i])
    decreases |items|
  {
    hide WellFormed, WholeVarint, ItemBytes, ValueAt, ContentOf, ViewOf;
    if items == [] {
    } else {
      HeldItem(s, pos, items);
      ItemView(s, pos, items);
      var x := items[0];
      var k := FieldOf(fields, TagOf(x));
      var next := if k < |fields| then values[k := ValueAt(x, pos)] else values;
      FoldViews(fields, s, pos + |ItemBytes(x)|, items[1..], next, i);
    }
  }

  /** Decoding well-formed fields gives each known field the content of its last
      occurrence, whatever the order and whatever unknown fields stand in between. */
  lemma DecodesItems(fields: seq<Field>, version: byte, items: seq<Item>, trailer: Data, i: nat)
    requires GoodFields(fields) && AllWellFormed(items) && i < |fields|
    ensures var input := [version] + Stream(items) + trailer; var d := Decode(fields, input, |trailer|);
      && d.version == version
      && Inside(d.values, |input|)
      && ViewOf(input, d.values[i]) == LastOf(items, fields[i].tag)
  {
    hide WellFormed, DecodeLoop, Fold, LastOf;
    var input := [version] + Stream(items) + trailer;
    var s := input[..|input| - |trailer|];
    assert s == [version] + Stream(items);
    assert s[1..] == Stream(items);
    LoopFolds(fields, s, 1, items, Nothing(fields));
    FoldViews(fields, s, 1, items, Nothing(fields), i);
    SameView(s, input, Decode(fields, input, |trailer|).values[i]);
  }

  lemma SameView(s: Data, t: Data, v: Value)
    requires s <= t && (v.Slice? ==> v.start + v.length <= |s|)
    ensures ViewOf(t, v) == ViewOf(s, v)
  {
  }

  /** No known tag occurs twice. */
  predicate KnownOnce(fields: seq<Field>, items: seq<Item>) {
    forall a, b :: 0 <= a < b < |items| && TagOf(items[a]) == TagOf(items[b]) ==>
      FieldOf(fields, TagOf(items[a])) == |fields|
  }

  /** The same known items, in any order. */
  ghost predicate SameKnown(fields: seq<Field>, items: seq<Item>, others: seq<Item>) {
    forall x :: FieldOf(fields, TagOf(x)) < |fields| ==> (x in items <==> x in others)
  }

  lemma {:induction false} LastOfMissing(items: seq<Item>, tag: byte)
    ensures LastOf(items, tag) == Missing <==> forall x :: x in items ==> TagOf(x) != tag
  {
    hide ContentOf;
    if items == [] {
    } else {
      LastOfMissing(items[1..], tag);
      assert forall x :: x in items <==> x == items[0] || x in items[1..];
    }
  }

  lemma {:induction false} LastOfOnly(items: seq<Item>, k: nat)
    requires k < |items| && forall j :: 0 <= j < |items| && j != k ==> TagOf(items[j]) != TagOf(items[k])
    ensures LastOf(items, TagOf(items[k])) == ContentOf(items[k])
  {
    hide ContentOf;
    if k == 0 {
      LastOfMissing(items[1..], TagOf(items[0]));
    } else {
      LastOfOnly(items[1..], k - 1);
    }
  }

  lemma OneContent(fields: seq<Field>, items: seq<Item>, others: seq<Item>, i: nat)
    requires GoodFields(fields) && KnownOnce(fields, items)
    requires KnownOnce(fields, others) && SameKnown(fields, items, others)
    requires i < |fields|
    ensures LastOf(items, fields[i].tag) == LastOf(others, fields[i].tag)
  {
    hide ContentOf;
    var tag := fields[i].tag;
    assert FieldOf(fields, tag) < |fields|;
    LastOfMissing(items, tag);
    LastOfMissing(others, tag);
    if x :| x in items && TagOf(x) == tag {
      var a :| 0 <= a < |items| && items[a] == x;
      var b :| 0 <= b < |others| && others[b] == x;
      LastOfOnly(items, a);
      LastOfOnly(others, b);
    }
  }

  /** With each known field once, the decoded contents do not depend on the order
      of the fields or on the unknown fields between them. */
  lemma OrderDoesNotMatter(fields: seq<Field>, version: byte, items: seq<Item>, others: seq<Item>, trailer: Data,
                           i: nat)
    requires GoodFields(fields) && AllWellFormed(items) && AllWellFormed(others) && i < |fields|
    requires KnownOnce(fields, items) && KnownOnce(fields, others) && SameKnown(fields, items, others)
    ensures var a, b := [version] + Stream(items) + trailer, [version] + Stream(others) + trailer;
      var d, e := Decode(fields, a, |trailer|), Decode(fields, b, |trailer|);
      && d.version == e.version && Inside(d.values, |a|) && Inside(e.values, |b|)
      && ViewOf(a, d.values[i]) == ViewOf(b, e.values[i])
  {
    hide *;
    DecodesItems(fields, version, items, trailer, i);
    DecodesItems(fields, version, others, trailer, i);
    OneContent(fields, items, others, i);
  }

  // ------------------------------------------------------------------
  // Encoded messages
  // ------------------------------------------------------------------

  /** A number that the field can carry. */
  predicate Carries(f: Field, n: nat) {
    n < if f.kind == ByteString then SIZE_MODULUS else MODULUS
  }

  /** The position behind field f with number or length n, written at `pos`. */
  function After(f: Field, n: nat, pos: nat): (next: nat) {
    pos + 1 + |VarintBytes(n)| + if f.kind == ByteString then n else 0
  }

  function End(fields: seq<Field>, numbers: seq<nat>, pos: nat): (p: nat)
    requires |fields| == |numbers|
    ensures p >= pos
    decreases |fields|
  {
    if fields == [] then pos else End(fields[1..], numbers[1..], After(fields[0], numbers[0], pos))
  }

  /** The tags, numbers and lengths that an encoder writes; the bytes in between are the caller's. */
  predicate HeaderAt(b: Data, pos: nat, fields: seq<Field>, numbers: seq<nat>)
    requires |fields| == |numbers|
    decreases |fields|
  {
    fields == [] ||
      (var v := VarintBytes(numbers[0]); var next := After(fields[0], numbers[0], pos);
       && next <= |b| && b[pos] == fields[0].tag && b[pos + 1..pos + 1 + |v|] == v
       && HeaderAt(b, next, fields[1..], numbers[1..]))
  }

  predicate AllCarried(fields: seq<Field>, numbers: seq<nat>) {
    |fields| == |numbers| && forall i :: 0 <= i < |fields| ==> Carries(fields[i], numbers[i])
  }

  function ExpectedOne(f: Field, n: nat, pos: nat): (v: Value)
    requires Carries(f, n)
  {
    if f.kind == ByteString then Slice(pos + 1 + |VarintBytes(n)|, n) else Number(n)
  }

  /** What a reader should find. */
  function Expected(fields: seq<Field>, numbers: seq<nat>, pos: nat): (r: seq<Value>)
    requires AllCarried(fields, numbers)
    ensures |r| == |fields|
    decreases |fields|
  {
    if fields == [] then []
    else
      [ExpectedOne(fields[0], numbers[0], pos)]
      + Expected(fields[1..], numbers[1..], After(fields[0], numbers[0], pos))
  }

  function ItemAt(b: Data, pos: nat, f: Field, n: nat): (x: Item)
    requires After(f, n, pos) <= |b|
  {
    Item([f.tag], VarintBytes(n), b[pos + 1 + |VarintBytes(n)|..After(f, n, pos)])
  }

  function ItemsAt(b: Data, pos: nat, fields: seq<Field>, numbers: seq<nat>): (r: seq<Item>)
    requires |fields| == |numbers| && HeaderAt(b, pos, fields, numbers)
    decreases |fields|
  {
    if fields == [] then []
    else
      [ItemAt(b, pos, fields[0], numbers[0])]
      + ItemsAt(b, After(fields[0], numbers[0], pos), fields[1..], numbers[1..])
  }

  lemma ItemAtWellFormed(b: Data, pos: nat, f: Field, n: nat)
    requires After(f, n, pos) <= |b| && GoodFields([f]) && Carries(f, n)
    ensures WellFormed(ItemAt(b, pos, f, n)) && TagOf(ItemAt(b, pos, f, n)) == f.tag
    ensures ValueAt(ItemAt(b, pos, f, n), pos) == ExpectedOne(f, n, pos)
  {
    hide VarintBytes, Varint;
    assert [f][0] == f;
    VarintBytesWhole(n);
    VarintUndone(n, if f.kind == ByteString then SIZE_MODULUS else MODULUS);
  }

  lemma ItemAtBytes(b: Data, pos: nat, f: Field, n: nat)
    requires After(f, n, pos) <= |b|
    requires b[pos] == f.tag && b[pos + 1..pos + 1 + |VarintBytes(n)|] == VarintBytes(n)
    ensures b[pos..After(f, n, pos)] == ItemBytes(ItemAt(b, pos, f, n))
  {
  }

  /** A header with its contents is a stream of well-formed items. */
  lemma {:induction false} HeaderIsStream(b: Data, pos: nat, fields: seq<Field>, numbers: seq<nat>)
    requires GoodFields(fields) && AllCarried(fields, numbers) && HeaderAt(b, pos, fields, numbers) && pos <= |b|
    ensures End(fields, numbers, pos) <= |b|
    ensures b[pos..End(fields, numbers, pos)] == Stream(ItemsAt(b, pos, fields, numbers))
    ensures AllWellFormed(ItemsAt(b, pos, fields, numbers))
    decreases |fields|
  {
    hide VarintBytes, WellFormed, ItemBytes, ItemAt, ValueAt;
    if fields == [] {
    } else {
      var f, n := fields[0], numbers[0];
      FirstField(fields);
      ItemAtWellFormed(b, pos, f, n);
      ItemAtBytes(b, pos, f, n);
      var next := After(f, n, pos);
      HeaderIsStream(b, next, fields[1..], numbers[1..]);
      assert b[pos..End(fields, numbers, pos)] == b[pos..next] + b[next..End(fields, numbers, pos)];
      var items := ItemsAt(b, pos, fields, numbers);
      assert items[0] == ItemAt(b, pos, f, n) && items[1..] == ItemsAt(b, next, fields[1..], numbers[1..]);
    }
  }

  lemma FirstField(fields: seq<Field>)
    requires GoodFields(fields) && fields != []
    ensures GoodFields([fields[0]]) && GoodFields(fields[1..])
  {
  }

  lemma FoldStep(all: seq<Field>, items: seq<Item>, pos: nat, values: seq<Value>, i: nat)
    requires GoodFields(all) && |values| == |all| && i < |all| && AllWellFormed(items) && items != []
    requires TagOf(items[0]) == all[i].tag
    ensures WellFormed(items[0]) && AllWellFormed(items[1..])
    ensures Fold(all, items, pos, values)
         == Fold(all, items[1..], pos + |ItemBytes(items[0])|, values[i := ValueAt(items[0], pos)])
  {
  }

  lemma Append<T>(values: seq<T>, i: nat, v: T, rest: seq<T>)
    requires i < |values|
    ensures values[i := v][..i + 1] + rest == values[..i] + ([v] + rest)
  {
  }

  lemma {:induction false} FoldExpected(all: seq<Field>, numbers: seq<nat>, i: nat, b: Data, pos: nat,
                                        values: seq<Value>)
    requires GoodFields(all) && AllCarried(all, numbers) && i <= |all| == |values| && pos <= |b|
    requires GoodFields(all[i..]) && AllCarried(all[i..], numbers[i..]) && HeaderAt(b, pos, all[i..], numbers[i..])
    requires AllWellFormed(ItemsAt(b, pos, all[i..], numbers[i..]))
    ensures Fold(all, ItemsAt(b, pos, all[i..], numbers[i..]), pos, values)
         == values[..i] + Expected(all[i..], numbers[i..], pos)
    decreases |all| - i
  {
    hide VarintBytes, WellFormed, ItemBytes, ItemAt, ValueAt, ExpectedOne, FieldOf, Carries, GoodFields;
    if i == |all| {
      assert values[..i] == values;
    } else {
      hide Fold, AllWellFormed;
      var f, n := all[i], numbers[i];
      assert all[i..][0] == f && all[i..][1..] == all[i + 1..];
      assert numbers[i..][0] == n && numbers[i..][1..] == numbers[i + 1..];
      FirstItemIs(b, pos, all[i..], numbers[i..]);
      var items := ItemsAt(b, pos, all[i..], numbers[i..]);
      FoldStep(all, items, pos, values, i);
      var next, v := After(f, n, pos), ExpectedOne(f, n, pos);
      FoldExpected(all, numbers, i + 1, b, next, values[i := v]);
      Append(values, i, v, Expected(all[i + 1..], numbers[i + 1..], next));
    }
  }

  lemma FirstItemIs(b: Data, pos: nat, fields: seq<Field>, numbers: seq<nat>)
    requires GoodFields(fields) && AllCarried(fields, numbers)
    requires HeaderAt(b, pos, fields, numbers) && pos <= |b| && fields != []
    ensures var items, next := ItemsAt(b, pos, fields, numbers), After(fields[0], numbers[0], pos);
      && HeaderAt(b, next, fields[1..], numbers[1..]) && GoodFields(fields[1..])
      && AllCarried(fields[1..], numbers[1..])
      && |fields| == |numbers| && Carries(fields[0], numbers[0])
      && items != [] && items[1..] == ItemsAt(b, next, fields[1..], numbers[1..])
      && WellFormed(items[0]) && TagOf(items[0]) == fields[0].tag && pos + |ItemBytes(items[0])| == next
      && ValueAt(items[0], pos) == ExpectedOne(fields[0], numbers[0], pos)
  {
    hide VarintBytes, WellFormed, ItemBytes, ItemAt, ValueAt, ExpectedOne;
    FirstField(fields);
    ItemAtWellFormed(b, pos, fields[0], numbers[0]);
    ItemAtBytes(b, pos, fields[0], numbers[0]);
  }

  /** Position k belongs to the contents of a field, not to the header. */
  predicate InContents(fields: seq<Field>, numbers: seq<nat>, pos: nat, k: nat)
    requires |fields| == |numbers|
    decreases |fields|
  {
    fields != [] &&
      ((fields[0].kind == ByteString && pos + 1 + |VarintBytes(numbers[0])| <= k < After(fields[0], numbers[0], pos))
       || InContents(fields[1..], numbers[1..], After(fields[0], numbers[0], pos), k))
  }

  lemma {:induction false} ContentsBehind(fields: seq<Field>, numbers: seq<nat>, pos: nat, k: nat)
    requires |fields| == |numbers| && InContents(fields, numbers, pos, k)
    ensures pos < k
    decreases |fields|
  {
    if !(fields[0].kind == ByteString && pos + 1 + |VarintBytes(numbers[0])| <= k < After(fields[0], numbers[0], pos)) {
      ContentsBehind(fields[1..], numbers[1..], After(fields[0], numbers[0], pos), k);
    }
  }

  /** Filling in the contents leaves the header as it was, as does cutting off what follows. */
  lemma {:induction false} HeaderFilled(b: Data, filled: Data, pos: nat, fields: seq<Field>, numbers: seq<nat>)
    requires |fields| == |numbers| && HeaderAt(b, pos, fields, numbers) && End(fields, numbers, pos) <= |filled|
    requires forall k :: pos <= k < End(fields, numbers, pos) && k < |b| && !InContents(fields, numbers, pos, k) ==>
      filled[k] == b[k]
    ensures HeaderAt(filled, pos, fields, numbers)
    decreases |fields|
  {
    hide VarintBytes;
    if fields == [] {
    } else {
      var v, next := VarintBytes(numbers[0]), After(fields[0], numbers[0], pos);
      forall k | pos <= k < pos + 1 + |v|
        ensures filled[k] == b[k]
      {
        if InContents(fields[1..], numbers[1..], next, k) {
          ContentsBehind(fields[1..], numbers[1..], next, k);
        }
      }
      assert filled[pos + 1..pos + 1 + |v|] == b[pos + 1..pos + 1 + |v|];
      forall k | next <= k < End(fields, numbers, pos) && k < |b| && !InContents(fields[1..], numbers[1..], next, k)
        ensures filled[k] == b[k]
      {
        assert !InContents(fields, numbers, pos, k);
      }
      HeaderFilled(b, filled, next, fields[1..], numbers[1..]);
    }
  }

  /** Decoding undoes encoding: the version, every number and every slice, exactly where
      the encoder put it, whatever the contents and the trailer. */
  lemma DecodesEncoded(fields: seq<Field>, numbers: seq<nat>, header: Data, b: Data, trailer: nat)
    requires |fields| == |numbers| && GoodFields(fields) && AllCarried(fields, numbers)
    requires |b| == End(fields, numbers, 1) + trailer
    requires HeaderAt(header, 1, fields, numbers)
    requires forall k :: 1 <= k < End(fields, numbers, 1) && k < |header| && !InContents(fields, numbers, 1, k) ==>
      b[k] == header[k]
    ensures Decode(fields, b, trailer) == Decoded(b[0], Expected(fields, numbers, 1))
  {
    hide HeaderAt, Decode, InContents, GoodFields, AllCarried, Expected, End;
    HeaderFilled(header, b[..|b| - trailer], 1, fields, numbers);
    DecodesHeader(fields, numbers, b, trailer);
  }

  lemma DecodesHeader(fields: seq<Field>, numbers: seq<nat>, b: Data, trailer: nat)
    requires GoodFields(fields) && AllCarried(fields, numbers)
    requires |b| == End(fields, numbers, 1) + trailer && HeaderAt(b[..|b| - trailer], 1, fields, numbers)
    ensures Decode(fields, b, trailer) == Decoded(b[0], Expected(fields, numbers, 1))
  {
    hide VarintBytes, WellFormed, DecodeLoop, Fold, End;
    var s := b[..|b| - trailer];
    HeaderIsStream(s, 1, fields, numbers);
    var items := ItemsAt(s, 1, fields, numbers);
    assert s[1..] == s[1..|s|] == Stream(items);
    LoopFolds(fields, s, 1, items, Nothing(fields));
    assert fields[0..] == fields && numbers[0..] == numbers;
    FoldExpected(fields, numbers, 0, s, 1, Nothing(fields));
    assert Nothing(fields)[..0] + Expected(fields, numbers, 1) == Expected(fields, numbers, 1);
  }

  // ------------------------------------------------------------------
  // The encoders
  // ------------------------------------------------------------------

  const VERSION_LENGTH: nat := 1

  method VarintLength(value: nat) returns (length: nat)
    ensures length == |VarintBytes(value)|
  {
    length := 1;
    var v := value;
    while v >= 128
      invariant length + |VarintBytes(v)| == |VarintBytes(value)| + 1
    {
      length := length + 1;
      v := v / 128;
    }
  }

  method VarintEncode(output: array<byte>, at: nat, value: nat) returns (next: nat)
    requires at + |VarintBytes(value)| <= output.Length
    modifies output
    ensures next == at + |VarintBytes(value)| && output[at..next] == VarintBytes(value)
    ensures Untouched(old(output[..]), output[..], at, next)
  {
    next := at;
    var v := value;
    hide VarintBytes, Written, Untouched;
    ghost var before := output[..];
    NothingWritten(before, at, value);
    while v >= 128
      invariant Written(before, output[..], at, next, v, value)
    {
      VarintStep(v);
      ByteWritten(before, output[..], at, next, v, value, v % 128 + 128, v / 128);
      next := AppendByte(output, next, v % 128 + 128);
      v := v / 128;
    }
    VarintStep(v);
    LastWritten(before, output[..], at, next, v, value);
    next := AppendByte(output, next, v);
  }

  /** Part of the varint of `value` stands from `at`, and what is missing is the varint of v. */
  ghost predicate Written(before: Data, b: Data, at: nat, next: nat, v: nat, value: nat) {
    && at <= next && next + |VarintBytes(v)| == at + |VarintBytes(value)| <= |b|
    && b[at..next] + VarintBytes(v) == VarintBytes(value)
    && Untouched(before, b, at, next)
  }

  lemma NothingWritten(b: Data, at: nat, value: nat)
    requires at + |VarintBytes(value)| <= |b|
    ensures Written(b, b, at, at, value, value)
  {
    assert b[at..at] + VarintBytes(value) == VarintBytes(value);
  }

  lemma ByteWritten(before: Data, b: Data, at: nat, next: nat, v: nat, value: nat, x: byte, rest: nat)
    requires Written(before, b, at, next, v, value) && VarintBytes(v) == [x] + VarintBytes(rest)
    ensures next < |b| && Written(before, b[next := x], at, next + 1, rest, value)
  {
    var b' := b[next := x];
    assert b'[at..next + 1] + VarintBytes(rest) == b[at..next] + VarintBytes(v);
  }

  lemma LastWritten(before: Data, b: Data, at: nat, next: nat, v: byte, value: nat)
    requires Written(before, b, at, next, v, value) && VarintBytes(v) == [v]
    ensures next + 1 == at + |VarintBytes(value)| <= |b|
    ensures b[next := v][at..next + 1] == VarintBytes(value) && Untouched(before, b[next := v], at, next + 1)
  {
    assert b[next := v][at..next + 1] == b[at..next] + [v];
  }

  /** `*(output++) = b`. */
  method AppendByte(output: array<byte>, next: nat, b: byte) returns (next': nat)
    requires next < output.Length
    modifies output
    ensures next' == next + 1 && output[..] == old(output[..])[next := b]
  {
    output[next] := b;
    next' := next + 1;
  }

  lemma VarintStep(v: nat)
    ensures VarintBytes(v) == if v < 128 then [v] else [v % 128 + 128] + VarintBytes(v / 128)
  {
  }

  /** `encode_bytes`: returns where the bytes go and where the next field starts. */
  method EncodeBytes(output: array<byte>, at: nat, tag: byte, length: nat) returns (value: nat, next: nat)
    requires After(Field(tag, ByteString), length, at) <= output.Length
    modifies output
    ensures value == at + 1 + |VarintBytes(length)|
    ensures next == value + length == After(Field(tag, ByteString), length, at)
    ensures FieldAt(output[..], at, tag, length)
    ensures Untouched(old(output[..]), output[..], at, value)
  {
    hide VarintBytes;
    output[at] := tag;
    value := VarintEncode(output, at + 1, length);
    next := value + length;
  }

  /** `encode_uint32`. */
  method EncodeUint32(output: array<byte>, at: nat, tag: byte, value: uint32) returns (next: nat)
    requires After(Field(tag, Integer), value, at) <= output.Length
    modifies output
    ensures next == After(Field(tag, Integer), value, at)
    ensures FieldAt(output[..], at, tag, value)
    ensures Untouched(old(output[..]), output[..], at, next)
  {
    hide VarintBytes;
    output[at] := tag;
    next := VarintEncode(output, at + 1, value);
  }

  /** A tag and a varint stand at `pos`. */
  predicate FieldAt(b: Data, pos: nat, tag: byte, n: nat) {
    var v := VarintBytes(n);
    pos + 1 + |v| <= |b| && b[pos] == tag && b[pos + 1..pos + 1 + |v|] == v
  }

  /** The two contents differ at most from `from` up to `upto`. */
  ghost predicate Untouched(before: Data, after: Data, from: nat, upto: nat) {
    |after| == |before| && forall k :: 0 <= k < |before| && !(from <= k < upto) ==> after[k] == before[k]
  }

  lemma FieldStays(before: Data, after: Data, from: nat, upto: nat, pos: nat, tag: byte, n: nat)
    requires Untouched(before, after, from, upto) && FieldAt(before, pos, tag, n) && pos + 1 + |VarintBytes(n)| <= from
    ensures FieldAt(after, pos, tag, n)
  {
  }

  lemma UntouchedBoth(a: Data, b: Data, c: Data, from: nat, upto: nat, from': nat, upto': nat)
    requires Untouched(a, b, from, upto) && Untouched(b, c, from', upto') && from <= from' && upto <= upto'
    ensures Untouched(a, c, from, upto')
  {
  }

  lemma Header1(b: Data, pos: nat, f: Field, n: nat)
    requires FieldAt(b, pos, f.tag, n) && After(f, n, pos) <= |b| && Carries(f, n)
    ensures HeaderAt(b, pos, [f], [n]) && End([f], [n], pos) == After(f, n, pos)
    ensures AllCarried([f], [n]) && Expected([f], [n], pos) == [ExpectedOne(f, n, pos)]
  {
  }

  lemma HeaderMore(b: Data, pos: nat, f: Field, n: nat, fields: seq<Field>, numbers: seq<nat>)
    requires FieldAt(b, pos, f.tag, n) && After(f, n, pos) <= |b| && Carries(f, n) && AllCarried(fields, numbers)
    requires HeaderAt(b, After(f, n, pos), fields, numbers)
    ensures HeaderAt(b, pos, [f] + fields, [n] + numbers)
    ensures End([f] + fields, [n] + numbers, pos) == End(fields, numbers, After(f, n, pos))
    ensures AllCarried([f] + fields, [n] + numbers)
    ensures Expected([f] + fields, [n] + numbers, pos)
         == [ExpectedOne(f, n, pos)] + Expected(fields, numbers, After(f, n, pos))
  {
  }

  lemma AfterGrows(f: Field, n: nat, pos: nat)
    ensures pos <= After(f, n, pos)
  {
  }

  lemma Header2(b: Data, pos: nat, f0: Field, n0: nat, f1: Field, n1: nat)
    requires FieldAt(b, pos, f0.tag, n0) && Carries(f0, n0) && Carries(f1, n1)
    requires var pos1 := After(f0, n0, pos); FieldAt(b, pos1, f1.tag, n1) && pos1 <= After(f1, n1, pos1) <= |b|
    ensures HeaderAt(b, pos, [f0, f1], [n0, n1]) && AllCarried([f0, f1], [n0, n1])
    ensures End([f0, f1], [n0, n1], pos) == After(f1, n1, After(f0, n0, pos))
    ensures Expected([f0, f1], [n0, n1], pos) == [ExpectedOne(f0, n0, pos), ExpectedOne(f1, n1, After(f0, n0, pos))]
  {
    hide VarintBytes, FieldAt, After, HeaderAt, Expected, End, AllCarried;
    var pos1 := After(f0, n0, pos);
    Header1(b, pos1, f1, n1);
    HeaderMore(b, pos, f0, n0, [f1], [n1]);
    assert [f0] + [f1] == [f0, f1] && [n0] + [n1] == [n0, n1];
  }

  lemma Header3(b: Data, pos: nat, f0: Field, n0: nat, f1: Field, n1: nat, f2: Field, n2: nat)
    requires FieldAt(b, pos, f0.tag, n0) && Carries(f0, n0) && Carries(f1, n1) && Carries(f2, n2)
    requires var pos1 := After(f0, n0, pos); var pos2 := After(f1, n1, pos1);
      && FieldAt(b, pos1, f1.tag, n1) && FieldAt(b, pos2, f2.tag, n2)
      && pos1 <= pos2 <= After(f2, n2, pos2) <= |b|
    ensures HeaderAt(b, pos, [f0, f1, f2], [n0, n1, n2]) && AllCarried([f0, f1, f2], [n0, n1, n2])
    ensures var pos1 := After(f0, n0, pos); var pos2 := After(f1, n1, pos1);
      && End([f0, f1, f2], [n0, n1, n2], pos) == After(f2, n2, pos2)
      && Expected([f0, f1, f2], [n0, n1, n2], pos)
      == [ExpectedOne(f0, n0, pos), ExpectedOne(f1, n1, pos1), ExpectedOne(f2, n2, pos2)]
  {
    hide VarintBytes, FieldAt, After, HeaderAt, Expected, End, AllCarried;
    var pos1 := After(f0, n0, pos);
    Header2(b, pos1, f1, n1, f2, n2);
    HeaderMore(b, pos, f0, n0, [f1, f2], [n1, n2]);
    assert [f0] + [f1, f2] == [f0, f1, f2] && [n0] + [n1, n2] == [n0, n1, n2];
  }

  const RATCHET_KEY_TAG: byte := 10
  const COUNTER_TAG: byte := 16
  const CIPHERTEXT_TAG: byte := 34
  const ONE_TIME_KEY_ID_TAG: byte := 10
  const BASE_KEY_TAG: byte := 18
  const IDENTITY_KEY_TAG: byte := 26
  const MESSAGE_TAG: byte := 34
  const GROUP_MESSAGE_INDEX_TAG: byte := 8
  const GROUP_CIPHERTEXT_TAG: byte := 18

  const MESSAGE_FIELDS := [Field(RATCHET_KEY_TAG, ByteString), Field(COUNTER_TAG, Integer),
                           Field(CIPHERTEXT_TAG, ByteString)]
  const PRE_KEY_FIELDS := [Field(ONE_TIME_KEY_ID_TAG, ByteString), Field(BASE_KEY_TAG, ByteString),
                           Field(IDENTITY_KEY_TAG, ByteString), Field(MESSAGE_TAG, ByteString)]
  const GROUP_FIELDS := [Field(GROUP_MESSAGE_INDEX_TAG, Integer), Field(GROUP_CIPHERTEXT_TAG, ByteString)]

  /** The three formats are ones the results above apply to. */
  lemma FormatsAreGood()
    ensures GoodFields(MESSAGE_FIELDS) && GoodFields(PRE_KEY_FIELDS) && GoodFields(GROUP_FIELDS)
  {
  }

  function VarstringLength(n: nat): (m: nat) {
    |VarintBytes(n)| + n
  }

  function EncodeMessageLength(counter: uint32, keyLength: nat, ciphertextLength: nat, macLength: nat): (n: nat) {
    VERSION_LENGTH + (1 + VarstringLength(keyLength)) + (1 + |VarintBytes(counter)|)
        + (1 + VarstringLength(ciphertextLength)) + macLength
  }

  /** `_olm_encode_message` at offset `at`: the version and the three fields, up to where the MAC goes. */
  method EncodeMessage(output: array<byte>, at: nat, version: byte, counter: uint32, keyLength: nat,
                       ciphertextLength: nat)
    returns (ratchetKey: nat, ciphertext: nat)
    requires keyLength < SIZE_MODULUS && ciphertextLength < SIZE_MODULUS
    requires at + EncodeMessageLength(counter, keyLength, ciphertextLength, 0) <= output.Length
    modifies output
    ensures output[at] == version
    ensures HeaderAt(output[..], at + 1, MESSAGE_FIELDS, [keyLength, counter, ciphertextLength])
    ensures ciphertext + ciphertextLength == End(MESSAGE_FIELDS, [keyLength, counter, ciphertextLength], at + 1)
         == at + EncodeMessageLength(counter, keyLength, ciphertextLength, 0)
    ensures Expected(MESSAGE_FIELDS, [keyLength, counter, ciphertextLength], at + 1)
         == [Slice(ratchetKey, keyLength), Number(counter), Slice(ciphertext, ciphertextLength)]
    ensures Untouched(old(output[..]), output[..], at, ciphertext)
  {
    hide VarintBytes, FieldAt, Untouched, HeaderAt, Expected, End, AllCarried;
    ghost var before := output[..];
    output[at] := version;
    ghost var b0 := output[..];
    var pos1, pos2, pos3: nat;
    ratchetKey, pos1 := EncodeBytes(output, at + 1, RATCHET_KEY_TAG, keyLength);
    ghost var b1 := output[..];
    pos2 := EncodeUint32(output, pos1, COUNTER_TAG, counter);
    ghost var b2 := output[..];
    ciphertext, pos3 := EncodeBytes(output, pos2, CIPHERTEXT_TAG, ciphertextLength);
    ghost var b := output[..];
    FieldStays(b1, b2, pos1, pos2, at + 1, RATCHET_KEY_TAG, keyLength);
    FieldStays(b2, b, pos2, ciphertext, at + 1, RATCHET_KEY_TAG, keyLength);
    FieldStays(b2, b, pos2, ciphertext, pos1, COUNTER_TAG, counter);
    MessageHeader(b, at + 1, counter, keyLength, ciphertextLength);
    UntouchedBoth(b1, b2, b, pos1, pos2, pos2, ciphertext);
    UntouchedBoth(b0, b1, b, at + 1, ratchetKey, pos1, ciphertext);
    Versioned(before, b0, b, at, ciphertext);
  }

  lemma Versioned(before: Data, b0: Data, b: Data, at: nat, upto: nat)
    requires at < |before| == |b0| && b0 == before[at := b0[at]] && Untouched(b0, b, at + 1, upto) && at < upto
    ensures b[at] == b0[at] && Untouched(before, b, at, upto)
  {
  }

  lemma MessageHeader(b: Data, pos: nat, counter: uint32, keyLength: nat, ciphertextLength: nat)
    requires keyLength < SIZE_MODULUS && ciphertextLength < SIZE_MODULUS
    requires FieldAt(b, pos, RATCHET_KEY_TAG, keyLength)
    requires var pos1 := After(Field(RATCHET_KEY_TAG, ByteString), keyLength, pos);
      && FieldAt(b, pos1, COUNTER_TAG, counter)
      && var pos2 := After(Field(COUNTER_TAG, Integer), counter, pos1);
         && FieldAt(b, pos2, CIPHERTEXT_TAG, ciphertextLength)
         && After(Field(CIPHERTEXT_TAG, ByteString), ciphertextLength, pos2) <= |b|
    ensures var n := [keyLength, counter, ciphertextLength];
      && HeaderAt(b, pos, MESSAGE_FIELDS, n) && AllCarried(MESSAGE_FIELDS, n)
      && var pos1 := After(Field(RATCHET_KEY_TAG, ByteString), keyLength, pos);
         var pos2 := After(Field(COUNTER_TAG, Integer), counter, pos1);
         && End(MESSAGE_FIELDS, n, pos) == After(Field(CIPHERTEXT_TAG, ByteString), ciphertextLength, pos2)
         && Expected(MESSAGE_FIELDS, n, pos)
         == [ExpectedOne(Field(RATCHET_KEY_TAG, ByteString), keyLength, pos), Number(counter),
             ExpectedOne(Field(CIPHERTEXT_TAG, ByteString), ciphertextLength, pos2)]
  {
    hide VarintBytes, FieldAt, After, HeaderAt, Expected, End, AllCarried;
    var f0, f1, f2 := Field(RATCHET_KEY_TAG, ByteString), Field(COUNTER_TAG, Integer),
        Field(CIPHERTEXT_TAG, ByteString);
    AfterGrows(f0, keyLength, pos);
    AfterGrows(f1, counter, After(f0, keyLength, pos));
    AfterGrows(f2, ciphertextLength, After(f1, counter, After(f0, keyLength, pos)));
    Header3(b, pos, f0, keyLength, f1, counter, f2, ciphertextLength);
  }

  function OneTimeKeyMessageLength(oneTime: nat, identity: nat, base: nat, message: nat): (n: nat) {
    VERSION_LENGTH + (1 + VarstringLength(oneTime)) + (1 + VarstringLength(identity)) + (1 + VarstringLength(base))
    + (1 + VarstringLength(message))
  }

  /** `_olm_encode_one_time_key_message`. */
  method EncodeOneTimeKeyMessage(output: array<byte>, version: byte, identity: nat, base: nat, oneTime: nat,
                                 message: nat)
    returns (identityKey: nat, baseKey: nat, oneTimeKey: nat, body: nat)
    requires identity < SIZE_MODULUS && base < SIZE_MODULUS && oneTime < SIZE_MODULUS && message < SIZE_MODULUS
    requires OneTimeKeyMessageLength(oneTime, identity, base, message) <= output.Length
    modifies output
    ensures output[0] == version
    ensures HeaderAt(output[..], 1, PRE_KEY_FIELDS, [oneTime, base, identity, message])
    ensures AllCarried(PRE_KEY_FIELDS, [oneTime, base, identity, message])
    ensures body + message == End(PRE_KEY_FIELDS, [oneTime, base, identity, message], 1)
         == OneTimeKeyMessageLength(oneTime, identity, base, message)
    ensures Expected(PRE_KEY_FIELDS, [oneTime, base, identity, message], 1)
         == [Slice(oneTimeKey, oneTime), Slice(baseKey, base), Slice(identityKey, identity), Slice(body, message)]
    ensures Untouched(old(output[..]), output[..], 0, body)
  {
    hide VarintBytes, FieldAt, Untouched, HeaderAt, Expected, End, AllCarried;
    ghost var before := output[..];
    output[0] := version;
    ghost var b0 := output[..];
    var pos1, pos2, pos3, pos4: nat;
    oneTimeKey, pos1 := EncodeBytes(output, 1, ONE_TIME_KEY_ID_TAG, oneTime);
    ghost var b1 := output[..];
    baseKey, pos2 := EncodeBytes(output, pos1, BASE_KEY_TAG, base);
    ghost var b2 := output[..];
    identityKey, pos3 := EncodeBytes(output, pos2, IDENTITY_KEY_TAG, identity);
    ghost var b3 := output[..];
    body, pos4 := EncodeBytes(output, pos3, MESSAGE_TAG, message);
    ghost var b := output[..];
    UntouchedBoth(b1, b2, b3, pos1, baseKey, pos2, identityKey);
    UntouchedBoth(b1, b3, b, pos1, identityKey, pos3, body);
    UntouchedBoth(b2, b3, b, pos2, identityKey, pos3, body);
    FieldStays(b1, b, pos1, body, 1, ONE_TIME_KEY_ID_TAG, oneTime);
    FieldStays(b2, b, pos2, body, pos1, BASE_KEY_TAG, base);
    FieldStays(b3, b, pos3, body, pos2, IDENTITY_KEY_TAG, identity);
    PreKeyHeader(b, oneTime, base, identity, message);
    UntouchedBoth(b0, b1, b, 1, oneTimeKey, pos1, body);
    Versioned(before, b0, b, 0, body);
  }

  lemma PreKeyHeader(b: Data, oneTime: nat, base: nat, identity: nat, message: nat)
    requires identity < SIZE_MODULUS && base < SIZE_MODULUS && oneTime < SIZE_MODULUS && message < SIZE_MODULUS
    requires FieldAt(b, 1, ONE_TIME_KEY_ID_TAG, oneTime)
    requires var pos1 := After(PRE_KEY_FIELDS[0], oneTime, 1); var pos2 := After(PRE_KEY_FIELDS[1], base, pos1);
      var pos3 := After(PRE_KEY_FIELDS[2], identity, pos2);
      && FieldAt(b, pos1, BASE_KEY_TAG, base) && FieldAt(b, pos2, IDENTITY_KEY_TAG, identity)
      && FieldAt(b, pos3, MESSAGE_TAG, message) && After(PRE_KEY_FIELDS[3], message, pos3) <= |b|
    ensures var n := [oneTime, base, identity, message];
      && HeaderAt(b, 1, PRE_KEY_FIELDS, n) && AllCarried(PRE_KEY_FIELDS, n)
      && var pos1 := After(PRE_KEY_FIELDS[0], oneTime, 1); var pos2 := After(PRE_KEY_FIELDS[1], base, pos1);
         var pos3 := After(PRE_KEY_FIELDS[2], identity, pos2);
         && End(PRE_KEY_FIELDS, n, 1) == After(PRE_KEY_FIELDS[3], message, pos3)
         && Expected(PRE_KEY_FIELDS, n, 1)
         == [ExpectedOne(PRE_KEY_FIELDS[0], oneTime, 1), ExpectedOne(PRE_KEY_FIELDS[1], base, pos1),
             ExpectedOne(PRE_KEY_FIELDS[2], identity, pos2), ExpectedOne(PRE_KEY_FIELDS[3], message, pos3)]
  {
    hide VarintBytes, FieldAt, After, HeaderAt, Expected, End, AllCarried;
    var f0, f1, f2, f3 := PRE_KEY_FIELDS[0], PRE_KEY_FIELDS[1], PRE_KEY_FIELDS[2], PRE_KEY_FIELDS[3];
    var pos1 := After(f0, oneTime, 1);
    var pos2 := After(f1, base, pos1);
    AfterGrows(f0, oneTime, 1);
    AfterGrows(f1, base, pos1);
    AfterGrows(f2, identity, pos2);
    AfterGrows(f3, message, After(f2, identity, pos2));
    Header3(b, pos1, f1, base, f2, identity, f3, message);
    HeaderMore(b, 1, f0, oneTime, [f1, f2, f3], [base, identity, message]);
    assert [f0] + [f1, f2, f3] == PRE_KEY_FIELDS;
    assert [oneTime] + [base, identity, message] == [oneTime, base, identity, message];
  }

  function GroupMessageLength(index: uint32, ciphertextLength: nat, macLength: nat, signatureLength: nat): (n: nat) {
    VERSION_LENGTH + (1 + |VarintBytes(index)|) + (1 + VarstringLength(ciphertextLength)) + macLength + signatureLength
  }

  /** `_olm_encode_group_message`: returns the length up to the MAC, and where the ciphertext goes. */
  method EncodeGroupMessage(output: array<byte>, version: byte, index: uint32, ciphertextLength: nat)
    returns (length: nat, ciphertext: nat)
    requires ciphertextLength < SIZE_MODULUS && GroupMessageLength(index, ciphertextLength, 0, 0) <= output.Length
    modifies output
    ensures output[0] == version
    ensures HeaderAt(output[..], 1, GROUP_FIELDS, [index, ciphertextLength])
    ensures AllCarried(GROUP_FIELDS, [index, ciphertextLength])
    ensures length == End(GROUP_FIELDS, [index, ciphertextLength], 1)
         == GroupMessageLength(index, ciphertextLength, 0, 0)
    ensures Expected(GROUP_FIELDS, [index, ciphertextLength], 1) == [Number(index), Slice(ciphertext, ciphertextLength)]
    ensures Untouched(old(output[..]), output[..], 0, ciphertext)
  {
    hide VarintBytes, FieldAt, Untouched;
    ghost var before := output[..];
    output[0] := version;
    ghost var b0 := output[..];
    var pos1 := EncodeUint32(output, 1, GROUP_MESSAGE_INDEX_TAG, index);
    ghost var b1 := output[..];
    ciphertext, length := EncodeBytes(output, pos1, GROUP_CIPHERTEXT_TAG, ciphertextLength);
    ghost var b := output[..];
    FieldStays(b1, b, pos1, ciphertext, 1, GROUP_MESSAGE_INDEX_TAG, index);
    UntouchedBoth(b0, b1, b, 1, pos1, pos1, ciphertext);
    Versioned(before, b0, b, 0, ciphertext);
    Header2(b, 1, GROUP_FIELDS[0], index, GROUP_FIELDS[1], ciphertextLength);
  }

  /** Each predicted length is where the header ends that the encoder writes, plus the trailer. */
  lemma LengthsAreEnds(counter: uint32, keyLength: nat, ciphertextLength: nat, macLength: nat,
                       identity: nat, base: nat, oneTime: nat, message: nat, signatureLength: nat)
    ensures EncodeMessageLength(counter, keyLength, ciphertextLength, macLength)
         == End(MESSAGE_FIELDS, [keyLength, counter, ciphertextLength], 1) + macLength
    ensures OneTimeKeyMessageLength(oneTime, identity, base, message)
         == End(PRE_KEY_FIELDS, [oneTime, base, identity, message], 1)
    ensures GroupMessageLength(counter, ciphertextLength, macLength, signatureLength)
         == End(GROUP_FIELDS, [counter, ciphertextLength], 1) + macLength + signatureLength
  {
    hide VarintBytes;
    EndOf2(GROUP_FIELDS, [counter, ciphertextLength], 1);
    EndOf3(MESSAGE_FIELDS, [keyLength, counter, ciphertextLength], 1);
    EndOf4(PRE_KEY_FIELDS, [oneTime, base, identity, message]);
  }

  lemma EndOf1(fields: seq<Field>, numbers: seq<nat>, pos: nat)
    requires |fields| == |numbers| == 1
    ensures End(fields, numbers, pos) == After(fields[0], numbers[0], pos)
  {
    hide After;
  }

  lemma EndOf2(fields: seq<Field>, numbers: seq<nat>, pos: nat)
    requires |fields| == |numbers| == 2
    ensures End(fields, numbers, pos) == After(fields[1], numbers[1], After(fields[0], numbers[0], pos))
  {
    hide After;
    EndOf1(fields[1..], numbers[1..], After(fields[0], numbers[0], pos));
  }

  lemma EndOf3(fields: seq<Field>, numbers: seq<nat>, pos: nat)
    requires |fields| == |numbers| == 3
    ensures End(fields, numbers, pos)
         == After(fields[2], numbers[2], After(fields[1], numbers[1], After(fields[0], numbers[0], pos)))
  {
    hide After;
    EndOf2(fields[1..], numbers[1..], After(fields[0], numbers[0], pos));
  }

  lemma EndOf4(fields: seq<Field>, numbers: seq<nat>)
    requires |fields| == |numbers| == 4
    ensures End(fields, numbers, 1)
         == After(fields[3], numbers[3],
                  After(fields[2], numbers[2], After(fields[1], numbers[1], After(fields[0], numbers[0], 1))))
  {
    hide After;
    EndOf3(fields[1..], numbers[1..], After(fields[0], numbers[0], 1));
  }

  // ------------------------------------------------------------------
  // A ratchet message inside a pre-key message
  // ------------------------------------------------------------------

  /** A header read from d bytes further on is the same header. */
  lemma {:induction false} HeaderMoved(b: Data, d: nat, pos: nat, fields: seq<Field>, numbers: seq<nat>)
    requires |fields| == |numbers| && d <= |b| && HeaderAt(b, d + pos, fields, numbers)
    ensures HeaderAt(b[d..], pos, fields, numbers)
    ensures End(fields, numbers, d + pos) == d + End(fields, numbers, pos)
    decreases |fields|
  {
    hide VarintBytes;
    if fields == [] {
    } else {
      var v, next := VarintBytes(numbers[0]), After(fields[0], numbers[0], pos);
      assert After(fields[0], numbers[0], d + pos) == d + next;
      HeaderMoved(b, d, next, fields[1..], numbers[1..]);
      assert b[d..][pos + 1..pos + 1 + |v|] == b[d + pos + 1..d + pos + 1 + |v|];
    }
  }

  lemma {:induction false} ContentsMoved(d: nat, pos: nat, fields: seq<Field>, numbers: seq<nat>, k: nat)
    requires |fields| == |numbers|
    ensures InContents(fields, numbers, d + pos, d + k) <==> InContents(fields, numbers, pos, k)
    decreases |fields|
  {
    hide VarintBytes;
    if fields == [] {
    } else {
      ContentsMoved(d, After(fields[0], numbers[0], pos), fields[1..], numbers[1..], k);
      assert After(fields[0], numbers[0], d + pos) == d + After(fields[0], numbers[0], pos);
    }
  }

  /** Header h carries both headers; in b the keys, the ciphertext and the MAC have been filled in. */
  ghost predicate Filled(h: Data, b: Data, pos: nat, fields: seq<Field>, numbers: seq<nat>)
    requires |fields| == |numbers|
  {
    forall k :: pos <= k < End(fields, numbers, pos) && k < |h| && k < |b| && !InContents(fields, numbers, pos, k) ==>
      b[k] == h[k]
  }

  /** Decoding a pre-key message and then the message inside gives back what both encoders wrote. */
  lemma NestedDecodes(h: Data, b: Data, outer: seq<nat>, body: nat, inner: seq<nat>, macLength: nat)
    requires AllCarried(PRE_KEY_FIELDS, outer) && AllCarried(MESSAGE_FIELDS, inner)
    requires HeaderAt(h, 1, PRE_KEY_FIELDS, outer) && |b| == End(PRE_KEY_FIELDS, outer, 1) <= |h|
    requires Expected(PRE_KEY_FIELDS, outer, 1)[3] == Slice(body, outer[3]) && body + outer[3] == |b|
    requires HeaderAt(h, body + 1, MESSAGE_FIELDS, inner) && outer[3] == End(MESSAGE_FIELDS, inner, 1) + macLength
    requires Filled(h, b, 1, PRE_KEY_FIELDS, outer) && Filled(h, b, body + 1, MESSAGE_FIELDS, inner)
    ensures Decode(PRE_KEY_FIELDS, b, 0) == Decoded(b[0], Expected(PRE_KEY_FIELDS, outer, 1))
    ensures Decode(MESSAGE_FIELDS, b[body..], macLength) == Decoded(b[body], Expected(MESSAGE_FIELDS, inner, 1))
  {
    FormatsAreGood();
    var m, header := b[body..], h[body..];
    hide HeaderAt, Decode, InContents, GoodFields, AllCarried, Expected, End;
    HeaderMoved(h, body, 1, MESSAGE_FIELDS, inner);
    forall k | 1 <= k < End(MESSAGE_FIELDS, inner, 1) && k < |header| && !InContents(MESSAGE_FIELDS, inner, 1, k)
      ensures m[k] == header[k]
    {
      ContentsMoved(body, 1, MESSAGE_FIELDS, inner, k);
    }
    DecodesEncoded(MESSAGE_FIELDS, inner, header, m, macLength);
    DecodesEncoded(PRE_KEY_FIELDS, outer, h, b, 0);
  }

  /** What `_olm_session_encrypt` writes for a session without an answer: the pre-key header, and
      the ratchet message's header into its last field. */
  method EncodeNested(output: array<byte>, version: byte, identity: nat, base: nat, oneTime: nat,
                      counter: uint32, keyLength: nat, ciphertextLength: nat, macLength: nat)
    returns (identityKey: nat, baseKey: nat, oneTimeKey: nat, body: nat, ratchetKey: nat, ciphertext: nat)
    requires identity < SIZE_MODULUS && base < SIZE_MODULUS && oneTime < SIZE_MODULUS
    requires keyLength < SIZE_MODULUS && ciphertextLength < SIZE_MODULUS
    requires EncodeMessageLength(counter, keyLength, ciphertextLength, macLength) < SIZE_MODULUS
    requires output.Length
          == OneTimeKeyMessageLength(oneTime, identity, base,
                                     EncodeMessageLength(counter, keyLength, ciphertextLength, macLength))
    modifies output
    ensures output[0] == version && body < output.Length && output[body] == version
    ensures var inner := [keyLength, counter, ciphertextLength];
      var outer := [oneTime, base, identity, EncodeMessageLength(counter, keyLength, ciphertextLength, macLength)];
      && HeaderAt(output[..], 1, PRE_KEY_FIELDS, outer) && HeaderAt(output[..], body + 1, MESSAGE_FIELDS, inner)
      && Decode(PRE_KEY_FIELDS, output[..], 0)
         == Decoded(version, [Slice(oneTimeKey, oneTime), Slice(baseKey, base), Slice(identityKey, identity),
                              Slice(body, outer[3])])
      && body <= ratchetKey && body <= ciphertext
      && Decode(MESSAGE_FIELDS, output[body..], macLength)
         == Decoded(version,
                    [Slice(ratchetKey - body, keyLength), Number(counter), Slice(ciphertext - body, ciphertextLength)])
  {
    hide VarintBytes, FieldAt, HeaderAt, Decode, InContents, Expected, End;
    ghost var inner := [keyLength, counter, ciphertextLength];
    var length := EncodeMessageLength(counter, keyLength, ciphertextLength, macLength);
    ghost var outer := [oneTime, base, identity, length];
    identityKey, baseKey, oneTimeKey, body := EncodeOneTimeKeyMessage(output, version, identity, base, oneTime, length);
    ghost var h := output[..];
    ratchetKey, ciphertext := EncodeMessage(output, body, version, counter, keyLength, ciphertextLength);
    ghost var b := output[..];
    InsideBody(h, b, outer, body, ciphertext);
    HeaderFilled(h, b, 1, PRE_KEY_FIELDS, outer);
    LengthsAreEnds(counter, keyLength, ciphertextLength, macLength, identity, base, oneTime, length, 0);
    InnerCarried(keyLength, counter, ciphertextLength);
    assert output[body..] == b[body..];
    NestedDecodes(b, b, outer, body, inner, macLength);
    MovedSlices(body, keyLength, counter, ciphertextLength, ratchetKey, ciphertext);
  }

  lemma InnerCarried(keyLength: nat, counter: uint32, ciphertextLength: nat)
    requires keyLength < SIZE_MODULUS && ciphertextLength < SIZE_MODULUS
    ensures AllCarried(MESSAGE_FIELDS, [keyLength, counter, ciphertextLength])
  {
  }

  /** What is written into the last field is not written over the header. */
  lemma InsideBody(h: Data, b: Data, outer: seq<nat>, body: nat, upto: nat)
    requires AllCarried(PRE_KEY_FIELDS, outer) && HeaderAt(h, 1, PRE_KEY_FIELDS, outer)
    requires Expected(PRE_KEY_FIELDS, outer, 1)[3] == Slice(body, outer[3]) && upto <= body + outer[3]
    requires Untouched(h, b, body, upto)
    ensures forall k :: 1 <= k < End(PRE_KEY_FIELDS, outer, 1) && k < |h| && k < |b| ==>
      !InContents(PRE_KEY_FIELDS, outer, 1, k) ==> b[k] == h[k]
  {
    forall k | body <= k < body + outer[3]
      ensures InContents(PRE_KEY_FIELDS, outer, 1, k)
    {
      LastContents(outer, body, k);
    }
    hide InContents, HeaderAt, Expected, End;
  }

  lemma LastContents(outer: seq<nat>, body: nat, k: nat)
    requires AllCarried(PRE_KEY_FIELDS, outer)
    requires Expected(PRE_KEY_FIELDS, outer, 1)[3] == Slice(body, outer[3]) && body <= k < body + outer[3]
    ensures InContents(PRE_KEY_FIELDS, outer, 1, k)
  {
    hide VarintBytes;
    var pos1 := After(PRE_KEY_FIELDS[0], outer[0], 1);
    var pos2 := After(PRE_KEY_FIELDS[1], outer[1], pos1);
    var pos3 := After(PRE_KEY_FIELDS[2], outer[2], pos2);
    var f, n := PRE_KEY_FIELDS, outer;
    assert Expected(f, n, 1)[3] == Expected(f[1..], n[1..], pos1)[2] == Expected(f[1..][1..], n[1..][1..], pos2)[1]
        == Expected(f[1..][1..][1..], n[1..][1..][1..], pos3)[0];
    assert InContents(f[1..][1..][1..], n[1..][1..][1..], pos3, k);
    assert InContents(f[1..][1..], n[1..][1..], pos2, k);
    assert InContents(f[1..], n[1..], pos1, k);
  }

  lemma MovedSlices(body: nat, keyLength: nat, counter: uint32, ciphertextLength: nat, ratchetKey: nat, ciphertext: nat)
    requires keyLength < SIZE_MODULUS && ciphertextLength < SIZE_MODULUS
    requires AllCarried(MESSAGE_FIELDS, [keyLength, counter, ciphertextLength])
    requires Expected(MESSAGE_FIELDS, [keyLength, counter, ciphertextLength], body + 1)
          == [Slice(ratchetKey, keyLength), Number(counter), Slice(ciphertext, ciphertextLength)]
    ensures body <= ratchetKey && body <= ciphertext
    ensures Expected(MESSAGE_FIELDS, [keyLength, counter, ciphertextLength], 1)
         == [Slice(ratchetKey - body, keyLength), Number(counter), Slice(ciphertext - body, ciphertextLength)]
  {
    hide VarintBytes;
    ExpectedOf3(keyLength, counter, ciphertextLength, 1);
    ExpectedOf3(keyLength, counter, ciphertextLength, body + 1);
    hide Expected;
  }

  lemma ExpectedOf3(keyLength: nat, counter: uint32, ciphertextLength: nat, pos: nat)
    requires AllCarried(MESSAGE_FIELDS, [keyLength, counter, ciphertextLength])
    requires keyLength < SIZE_MODULUS && ciphertextLength < SIZE_MODULUS
    ensures var pos1 := After(MESSAGE_FIELDS[0], keyLength, pos); var pos2 := After(MESSAGE_FIELDS[1], counter, pos1);
      Expected(MESSAGE_FIELDS, [keyLength, counter, ciphertextLength], pos)
      == [ExpectedOne(MESSAGE_FIELDS[0], keyLength, pos), Number(counter),
          ExpectedOne(MESSAGE_FIELDS[2], ciphertextLength, pos2)]
  {
    hide VarintBytes, After;
    var f, n := MESSAGE_FIELDS, [keyLength, counter, ciphertextLength];
    var pos1 := After(f[0], keyLength, pos);
    var pos2 := After(f[1], counter, pos1);
    assert n[1..] == [counter, ciphertextLength] && n[1..][1..] == [ciphertextLength] && n[1..][1..][1..] == [];
    assert Expected(f[1..][1..], n[1..][1..], pos2) == [ExpectedOne(f[2], ciphertextLength, pos2)];
    assert Expected(f[1..], n[1..], pos1) == [Number(counter), ExpectedOne(f[2], ciphertextLength, pos2)];
  }

  // ------------------------------------------------------------------
  // The decoders
  // ------------------------------------------------------------------

  method VarintSkip(s: Data, from: nat) returns (pos: nat)
    requires from <= |s|
    ensures pos == Skip(s, from)
  {
    pos := from;
    while pos != |s|
      invariant from <= pos <= |s| && Skip(s, pos) == Skip(s, from)
      decreases |s| - pos
    {
      var tmp := s[pos];
      pos := pos + 1;
      if tmp < 128 {
        return;
      }
    }
  }

  /** From the last byte to the first. */
  method VarintDecode(s: Data, from: nat, upto: nat, modulus: nat) returns (value: nat)
    requires from <= upto <= |s| && modulus > 0
    ensures value == Varint(s, from, upto, modulus)
  {
    hide Shifted;
    value := 0;
    var pos := upto;
    while pos != from
      invariant from <= pos <= upto && value == Varint(s, pos, upto, modulus)
    {
      pos := pos - 1;
      value := Shifted(value, s[pos], modulus);
    }
  }

  method ReadBytes(s: Data, from: nat, tag: byte, was: Value) returns (pos: nat, value: Value)
    requires from <= |s|
    ensures (pos, value) == DecodeBytes(s, from, tag, was)
  {
    hide Skip, Varint;
    pos, value := from, was;
    if pos != |s| && s[pos] == tag {
      pos := VarintSkip(s, from + 1);
      var length := VarintDecode(s, from + 1, pos, SIZE_MODULUS);
      if length > |s| - pos {
        return |s|, was;
      }
      value := Slice(pos, length);
      pos := pos + length;
    }
  }

  method ReadUint32(s: Data, from: nat, tag: byte, was: Value) returns (pos: nat, value: Value)
    requires from <= |s|
    ensures (pos, value) == DecodeUint32(s, from, tag, was)
  {
    hide Skip, Varint;
    pos, value := from, was;
    if pos != |s| && s[pos] == tag {
      pos := VarintSkip(s, from + 1);
      var n := VarintDecode(s, from + 1, pos, MODULUS);
      value := Number(n);
    }
  }

  method SkipField(s: Data, from: nat) returns (pos: nat)
    requires from <= |s|
    ensures pos == SkipUnknown(s, from)
  {
    hide Skip, Varint;
    pos := from;
    if pos != |s| {
      var tag := s[pos];
      if tag % 8 == 0 {
        pos := VarintSkip(s, pos);
        pos := VarintSkip(s, pos);
      } else if tag % 8 == 2 {
        var lengthStart := VarintSkip(s, pos);
        pos := VarintSkip(s, lengthStart);
        var length := VarintDecode(s, lengthStart, pos, SIZE_MODULUS);
        if length > |s| - pos {
          return |s|;
        }
        pos := pos + length;
      } else {
        return |s|;
      }
    }
  }

  /** The fields of an `_OlmMessageReader`. */
  class MessageReader {
    var version: byte
    var ratchetKey: Value
    var counter: Value
    var ciphertext: Value

    function View(): (d: Decoded)
      reads this
    {
      Decoded(version, [ratchetKey, counter, ciphertext])
    }

    constructor () {
      version, ratchetKey, counter, ciphertext := 0, Absent, Absent, Absent;
    }

    /** `_olm_decode_message`. */
    method DecodeMessage(input: Data, macLength: nat)
      modifies this
      ensures View() == Decode(MESSAGE_FIELDS, input, macLength)
    {
      hide DecodeBytes, DecodeUint32, SkipUnknown;
      version, ratchetKey, counter, ciphertext := 0, Absent, Absent, Absent;
      assert Nothing(MESSAGE_FIELDS) == [Absent, Absent, Absent];
      if |input| < macLength {
        return;
      }
      var s := input[..|input| - macLength];
      if s == [] {
        return;
      }
      version := s[0];
      var pos := 1;
      while pos != |s|
        invariant pos <= |s|
        invariant version == s[0]
        invariant DecodeLoop(MESSAGE_FIELDS, s, pos, [ratchetKey, counter, ciphertext])
               == DecodeLoop(MESSAGE_FIELDS, s, 1, [Absent, Absent, Absent])
        decreases |s| - pos
      {
        var unknown := pos;
        Pass3(s, pos, ratchetKey, counter, ciphertext);
        pos, ratchetKey := ReadBytes(s, pos, RATCHET_KEY_TAG, ratchetKey);
        pos, counter := ReadUint32(s, pos, COUNTER_TAG, counter);
        pos, ciphertext := ReadBytes(s, pos, CIPHERTEXT_TAG, ciphertext);
        if unknown == pos {
          pos := SkipField(s, pos);
        }
      }
    }
  }

  lemma Pass3(s: Data, pos: nat, v0: Value, v1: Value, v2: Value)
    requires pos <= |s|
    ensures var (p0, w0) := DecodeBytes(s, pos, RATCHET_KEY_TAG, v0);
      var (p1, w1) := DecodeUint32(s, p0, COUNTER_TAG, v1);
      var (p2, w2) := DecodeBytes(s, p1, CIPHERTEXT_TAG, v2);
      Pass(MESSAGE_FIELDS, s, pos, [v0, v1, v2], 0) == (p2, [w0, w1, w2])
  {
    hide DecodeBytes, DecodeUint32;
    var (p0, w0) := DecodeBytes(s, pos, RATCHET_KEY_TAG, v0);
    var (p1, w1) := DecodeUint32(s, p0, COUNTER_TAG, v1);
    var (p2, w2) := DecodeBytes(s, p1, CIPHERTEXT_TAG, v2);
    assert Pass(MESSAGE_FIELDS, s, p2, [w0, w1, w2], 3) == (p2, [w0, w1, w2]);
    assert [w0, w1, v2][2 := w2] == [w0, w1, w2] && [w0, v1, v2][1 := w1] == [w0, w1, v2]
           && [v0, v1, v2][0 := w0] == [w0, v1, v2];
    assert Pass(MESSAGE_FIELDS, s, p1, [w0, w1, v2], 2) == (p2, [w0, w1, w2]);
    assert Pass(MESSAGE_FIELDS, s, p0, [w0, v1, v2], 1) == (p2, [w0, w1, w2]);
  }

  /** The fields of an `_OlmPreKeyMessageReader`. */
  class PreKeyMessageReader {
    var version: byte
    var oneTimeKey: Value
    var baseKey: Value
    var identityKey: Value
    var message: Value

    function View(): (d: Decoded)
      reads this
    {
      Decoded(version, [oneTimeKey, baseKey, identityKey, message])
    }

    constructor () {
      version, oneTimeKey, baseKey, identityKey, message := 0, Absent, Absent, Absent, Absent;
    }

    /** `_olm_decode_one_time_key_message`: there is no trailer. */
    method DecodeOneTimeKeyMessage(input: Data)
      modifies this
      ensures View() == Decode(PRE_KEY_FIELDS, input, 0)
    {
      hide DecodeBytes, SkipUnknown;
      version, oneTimeKey, baseKey, identityKey, message := 0, Absent, Absent, Absent, Absent;
      assert Nothing(PRE_KEY_FIELDS) == [Absent, Absent, Absent, Absent];
      if input == [] {
        return;
      }
      assert input[..|input| - 0] == input;
      version := input[0];
      var pos := 1;
      while pos != |input|
        invariant pos <= |input|
        invariant version == input[0]
        invariant DecodeLoop(PRE_KEY_FIELDS, input, pos, [oneTimeKey, baseKey, identityKey, message])
               == DecodeLoop(PRE_KEY_FIELDS, input, 1, [Absent, Absent, Absent, Absent])
        decreases |input| - pos
      {
        var unknown := pos;
        Pass4(input, pos, oneTimeKey, baseKey, identityKey, message);
        pos, oneTimeKey := ReadBytes(input, pos, ONE_TIME_KEY_ID_TAG, oneTimeKey);
        pos, baseKey := ReadBytes(input, pos, BASE_KEY_TAG, baseKey);
        pos, identityKey := ReadBytes(input, pos, IDENTITY_KEY_TAG, identityKey);
        pos, message := ReadBytes(input, pos, MESSAGE_TAG, message);
        if unknown == pos {
          pos := SkipField(input, pos);
        }
      }
    }
  }

  lemma Pass4(s: Data, pos: nat, v0: Value, v1: Value, v2: Value, v3: Value)
    requires pos <= |s|
    ensures var (p0, w0) := DecodeBytes(s, pos, ONE_TIME_KEY_ID_TAG, v0);
      var (p1, w1) := DecodeBytes(s, p0, BASE_KEY_TAG, v1);
      var (p2, w2) := DecodeBytes(s, p1, IDENTITY_KEY_TAG, v2);
      var (p3, w3) := DecodeBytes(s, p2, MESSAGE_TAG, v3);
      Pass(PRE_KEY_FIELDS, s, pos, [v0, v1, v2, v3], 0) == (p3, [w0, w1, w2, w3])
  {
    hide DecodeBytes;
    var (p0, w0) := DecodeBytes(s, pos, ONE_TIME_KEY_ID_TAG, v0);
    var (p1, w1) := DecodeBytes(s, p0, BASE_KEY_TAG, v1);
    var (p2, w2) := DecodeBytes(s, p1, IDENTITY_KEY_TAG, v2);
    var (p3, w3) := DecodeBytes(s, p2, MESSAGE_TAG, v3);
    assert [v0, v1, v2, v3][0 := w0] == [w0, v1, v2, v3] && [w0, v1, v2, v3][1 := w1] == [w0, w1, v2, v3];
    assert [w0, w1, v2, v3][2 := w2] == [w0, w1, w2, v3] && [w0, w1, w2, v3][3 := w3] == [w0, w1, w2, w3];
    assert Pass(PRE_KEY_FIELDS, s, p3, [w0, w1, w2, w3], 4) == (p3, [w0, w1, w2, w3]);
    assert Pass(PRE_KEY_FIELDS, s, p2, [w0, w1, w2, v3], 3) == (p3, [w0, w1, w2, w3]);
    assert Pass(PRE_KEY_FIELDS, s, p1, [w0, w1, v2, v3], 2) == (p3, [w0, w1, w2, w3]);
    assert Pass(PRE_KEY_FIELDS, s, p0, [w0, v1, v2, v3], 1) == (p3, [w0, w1, w2, w3]);
  }

  /** The fields of an `_OlmDecodeGroupMessageResults`. */
  class GroupMessageResults {
    var version: byte
    var messageIndex: Value
    var ciphertext: Value

    function View(): (d: Decoded)
      reads this
    {
      Decoded(version, [messageIndex, ciphertext])
    }

    constructor () {
      version, messageIndex, ciphertext := 0, Absent, Absent;
    }

    /** `_olm_decode_group_message`: the trailer is a MAC and a signature. */
    method DecodeGroupMessage(input: Data, macLength: nat, signatureLength: nat)
      modifies this
      ensures View() == Decode(GROUP_FIELDS, input, macLength + signatureLength)
    {
      hide DecodeBytes, DecodeUint32, SkipUnknown;
      version, messageIndex, ciphertext := 0, Absent, Absent;
      assert Nothing(GROUP_FIELDS) == [Absent, Absent];
      if |input| < macLength + signatureLength {
        return;
      }
      var s := input[..|input| - (macLength + signatureLength)];
      if s == [] {
        return;
      }
      version := s[0];
      var pos := 1;
      while pos != |s|
        invariant pos <= |s|
        invariant version == s[0]
        invariant DecodeLoop(GROUP_FIELDS, s, pos, [messageIndex, ciphertext])
               == DecodeLoop(GROUP_FIELDS, s, 1, [Absent, Absent])
        decreases |s| - pos
      {
        var unknown := pos;
        Pass2(s, pos, messageIndex, ciphertext);
        pos, messageIndex := ReadUint32(s, pos, GROUP_MESSAGE_INDEX_TAG, messageIndex);
        pos, ciphertext := ReadBytes(s, pos, GROUP_CIPHERTEXT_TAG, ciphertext);
        if unknown == pos {
          pos := SkipField(s, pos);
        }
      }
    }
  }

  lemma Pass2(s: Data, pos: nat, v0: Value, v1: Value)
    requires pos <= |s|
    ensures var (p0, w0) := DecodeUint32(s, pos, GROUP_MESSAGE_INDEX_TAG, v0);
      var (p1, w1) := DecodeBytes(s, p0, GROUP_CIPHERTEXT_TAG, v1);
      Pass(GROUP_FIELDS, s, pos, [v0, v1], 0) == (p1, [w0, w1])
  {
    hide DecodeBytes, DecodeUint32;
    var (p0, w0) := DecodeUint32(s, pos, GROUP_MESSAGE_INDEX_TAG, v0);
    var (p1, w1) := DecodeBytes(s, p0, GROUP_CIPHERTEXT_TAG, v1);
    assert [v0, v1][0 := w0] == [w0, v1] && [w0, v1][1 := w1] == [w0, w1];
    assert Pass(GROUP_FIELDS, s, p1, [w0, w1], 2) == (p1, [w0, w1]);
    assert Pass(GROUP_FIELDS, s, p0, [w0, v1], 1) == (p1, [w0, w1]);
  }
}
