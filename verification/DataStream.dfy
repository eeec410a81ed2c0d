/**
 * The binary stream of cpp-serialize/DataStream.h: tagged little-endian scalars, strings with a tagged length,
 * and vectors, sets and lists of these.
 *
 * Reading outside the buffer, or using a variable that a refused read left unset, is `Undefined`; the reading
 * methods require that it does not happen. Integers of the implementation are unbounded here.
 */
module DataStream {
  import Arith

  type Byte = n: int | 0 <= n < 256

  // ---------------------------------------------------------------- little-endian numbers

  /** 256 to the power `width`. */
  function Limit(width: nat): (l: nat)
    ensures l >= 1 && (width > 0 ==> l % 2 == 0)
  {
    if width == 0 then 1 else 256 * Limit(width - 1)
  }

  function ToBytes(n: nat, width: nat): (bytes: seq<Byte>)
    ensures |bytes| == width
    decreases width
  {
    if width == 0 then [] else [n % 256] + ToBytes(n / 256, width - 1)
  }

  function FromBytes(bytes: seq<Byte>): nat {
    if bytes == [] then 0 else bytes[0] + 256 * FromBytes(bytes[1..])
  }

  lemma {:induction false} NumberRoundTrip(n: nat, width: nat)
    requires n < Limit(width)
    ensures FromBytes(ToBytes(n, width)) == n
    decreases width
  {
    if width > 0 {
      NumberRoundTrip(n / 256, width - 1);
      assert ToBytes(n, width)[1..] == ToBytes(n / 256, width - 1);
    }
  }

  lemma {:induction false} BytesRoundTrip(bytes: seq<Byte>)
    ensures FromBytes(bytes) < Limit(|bytes|) && ToBytes(FromBytes(bytes), |bytes|) == bytes
  {
    if bytes != [] {
      BytesRoundTrip(bytes[1..]);
      ToBytesOf(bytes[0], FromBytes(bytes[1..]), |bytes| - 1);
      assert bytes == [bytes[0]] + bytes[1..];
    }
  }

  lemma ToBytesOf(first: Byte, rest: nat, width: nat)
    ensures ToBytes(first + 256 * rest, width + 1) == [first] + ToBytes(rest, width)
  {
    assert (first + 256 * rest) % 256 == first && (first + 256 * rest) / 256 == rest;
  }

  // ---------------------------------------------------------------- values

  datatype Kind = Bool | Char | Int16 | Int32 | Int64 | Float | Double | String

  /** A scalar is a number: 0 or 1 for bool, the byte for char, the bit pattern for float and double. */
  datatype Value = Scalar(kind: Kind, n: int) | Text(bytes: seq<Byte>)

  const VECTOR: Byte := 8
  const LIST: Byte := 9
  const SET: Byte := 10

  function Tag(kind: Kind): Byte {
    match kind
    case Bool => 0
    case Char => 1
    case Int16 => 2
    case Int32 => 3
    case Int64 => 4
    case Float => 5
    case Double => 6
    case String => 7
  }

  function Width(kind: Kind): nat {
    match kind
    case Bool => 1
    case Char => 1
    case Int16 => 2
    case Int32 => 4
    case Int64 => 8
    case Float => 4
    case Double => 8
    case String => 0
  }

  predicate Signed(kind: Kind) {
    kind == Int16 || kind == Int32 || kind == Int64
  }

  predicate InRange(kind: Kind, n: int) {
    if kind == Bool then 0 <= n <= 1
    else if Signed(kind) then -(Limit(Width(kind)) / 2) <= n < Limit(Width(kind)) / 2
    else 0 <= n < Limit(Width(kind))
  }

  predicate ValidValue(v: Value) {
    match v
    case Scalar(kind, n) => kind != String && InRange(kind, n)
    case Text(bytes) => InRange(Int32, |bytes|)
  }

  function KindOf(v: Value): Kind {
    if v.Scalar? then v.kind else String
  }

  function ToRaw(kind: Kind, n: int): (raw: nat)
    requires kind != String && InRange(kind, n)
    ensures raw < Limit(Width(kind))
  {
    if n < 0 then n + Limit(Width(kind)) else n
  }

  function FromRaw(kind: Kind, raw: nat): int {
    if kind == Bool then (if raw != 0 then 1 else 0)
    else if Signed(kind) && raw >= Limit(Width(kind)) / 2 then raw - Limit(Width(kind))
    else raw
  }

  function EncodeScalar(kind: Kind, n: int): seq<Byte>
    requires kind != String && InRange(kind, n)
  {
    [Tag(kind)] + ToBytes(ToRaw(kind, n), Width(kind))
  }

  function Encode(v: Value): seq<Byte>
    requires ValidValue(v)
  {
    match v
    case Scalar(kind, n) => EncodeScalar(kind, n)
    case Text(bytes) => [Tag(String)] + EncodeScalar(Int32, |bytes|) + bytes
  }

  /** The digit of weight 256 to the j. */
  function Digit(n: nat, j: nat): int {
    n / Limit(j) % 256
  }

  /** Byte `j` of a little-endian number is that digit. */
  lemma {:induction false} ByteAt(n: nat, width: nat, j: nat)
    requires j < width
    ensures ToBytes(n, width)[j] == Digit(n, j)
    decreases width
  {
    if j > 0 {
      ByteAt(n / 256, width - 1, j - 1);
      DivideTwice(n, 256, Limit(j - 1));
    }
  }

  lemma DivideTwice(n: nat, a: nat, b: nat)
    requires a > 0 && b > 0
    ensures a * b > 0 && n / a / b == n / (a * b)
  {
    var q, r := n / a / b, (n / a) % b;
    assert n == a * (n / a) + n % a && n / a == b * q + r;
    Arith.MulAtLeast(a, b);
    Arith.Distribute(a, b * q, r);
    Arith.MulAssoc(a, b, q);
    Below(a, b, r, n % a);
    Arith.DivModUnique(n, a * b, q, a * r + n % a);
  }

  lemma Below(a: nat, b: nat, r: nat, s: nat)
    requires r < b && s < a
    ensures 0 <= a * r + s < a * b
  {
    Arith.Distribute(a, r, b - r);
    Arith.MulAtLeast(a, b - r);
  }

  /** The bytes written for a scalar: the number of its type in the source's enumeration, then the digits of the
      number, or of its two's complement. */
  lemma WrittenScalar(kind: Kind, n: int)
    requires kind != String && InRange(kind, n)
    ensures var bytes, raw := EncodeScalar(kind, n), if n >= 0 then n else n + Limit(Width(kind));
            && |bytes| == 1 + Width(kind) && raw >= 0
            && bytes[0] == (match kind
                            case Bool => 0 case Char => 1 case Int16 => 2 case Int32 => 3
                            case Int64 => 4 case Float => 5 case Double => 6)
            && forall j :: 0 <= j < Width(kind) ==> bytes[1 + j] == Digit(raw, j)
  {
    forall j | 0 <= j < Width(kind)
      ensures EncodeScalar(kind, n)[1 + j] == Digit(ToRaw(kind, n), j)
    {
      ByteAt(ToRaw(kind, n), Width(kind), j);
    }
  }

  /** The bytes written for a string: 7, then its length as an int32, then its characters. */
  lemma WrittenText(bytes: seq<Byte>)
    requires ValidValue(Text(bytes))
    ensures var out := Encode(Text(bytes));
            && |out| == 6 + |bytes| && out[0] == 7 && out[1] == 3 && out[6..] == bytes
            && forall j :: 0 <= j < 4 ==> out[2 + j] == Digit(|bytes|, j)
  {
    WrittenScalar(Int32, |bytes|);
    assert Encode(Text(bytes)) == [7] + EncodeScalar(Int32, |bytes|) + bytes;
    forall j | 0 <= j < 4
      ensures Encode(Text(bytes))[2 + j] == Digit(|bytes|, j)
    {
      assert Encode(Text(bytes))[2 + j] == EncodeScalar(Int32, |bytes|)[1 + j];
    }
  }

  // ---------------------------------------------------------------- reading a value

  /** What a read does: the value and the cursor after it, false and the cursor, or undefined behaviour. */
  datatype Outcome<T> = Got(value: T, pos: int) | Refused(pos: int) | Undefined

  /** Bytes from the cursor, if all are in the buffer. */
  predicate Has(buf: seq<Byte>, pos: int, count: int) {
    0 <= pos && 0 <= count && pos + count <= |buf|
  }

  function ScalarAt(buf: seq<Byte>, pos: int, kind: Kind): Outcome<int> {
    var width := Width(kind);
    if !Has(buf, pos, 1) then Undefined
    else if buf[pos] != Tag(kind) then Refused(pos)
    else if !Has(buf, pos + 1, width) then Undefined
    else Got(FromRaw(kind, FromBytes(buf[pos + 1..pos + 1 + width])), pos + 1 + width)
  }

  function TextAt(buf: seq<Byte>, pos: int): Outcome<seq<Byte>> {
    if !Has(buf, pos, 1) then Undefined
    else if buf[pos] != Tag(String) then Refused(pos)
    else match ScalarAt(buf, pos + 1, Int32)
      case Got(len, p) =>
        if len < 0 then Refused(p)
        else if !Has(buf, p, len) then Undefined
        else Got(buf[p..p + len], p + len)
      case _ => Undefined
  }

  function ValueAt(buf: seq<Byte>, pos: int, kind: Kind): Outcome<Value> {
    if kind == String then
      match TextAt(buf, pos)
      case Got(bytes, p) => Got(Text(bytes), p)
      case Refused(p) => Refused(p)
      case Undefined => Undefined
    else
      match ScalarAt(buf, pos, kind)
      case Got(n, p) => Got(Scalar(kind, n), p)
      case Refused(p) => Refused(p)
      case Undefined => Undefined
  }

  /** `bytes` stand in the buffer at `pos`. */
  ghost predicate Holds(buf: seq<Byte>, pos: int, bytes: seq<Byte>) {
    Has(buf, pos, |bytes|) && buf[pos..pos + |bytes|] == bytes
  }

  lemma HoldsWhole(buf: seq<Byte>)
    ensures Holds(buf, 0, buf)
  {
    assert buf[0..|buf|] == buf;
  }

  lemma HoldsParts(buf: seq<Byte>, pos: int, a: seq<Byte>, b: seq<Byte>)
    requires Holds(buf, pos, a + b)
    ensures Holds(buf, pos, a) && Holds(buf, pos + |a|, b)
  {
    var c := buf[pos..pos + |a + b|];
    assert c[..|a|] == a && c[|a|..] == b;
  }

  lemma ScalarReadsBack(buf: seq<Byte>, pos: int, kind: Kind, n: int)
    requires kind != String && InRange(kind, n) && Holds(buf, pos, EncodeScalar(kind, n))
    ensures ScalarAt(buf, pos, kind) == Got(n, pos + 1 + Width(kind))
  {
    var raw := ToRaw(kind, n);
    HoldsParts(buf, pos, [Tag(kind)], ToBytes(raw, Width(kind)));
    NumberRoundTrip(raw, Width(kind));
    assert buf[pos..pos + 1][0] == Tag(kind);
    assert FromRaw(kind, raw) == n;
  }

  /** A written scalar or string reads back, wherever it stands, with the cursor just after it. */
  lemma ValueReadsBack(buf: seq<Byte>, pos: int, v: Value)
    requires ValidValue(v) && Holds(buf, pos, Encode(v))
    ensures ValueAt(buf, pos, KindOf(v)) == Got(v, pos + |Encode(v)|)
  {
    match v
    case Scalar(kind, n) => ScalarReadsBack(buf, pos, kind, n);
    case Text(bytes) =>
      HoldsParts(buf, pos, [Tag(String)] + EncodeScalar(Int32, |bytes|), bytes);
      HoldsParts(buf, pos, [Tag(String)], EncodeScalar(Int32, |bytes|));
      assert buf[pos..pos + 1][0] == Tag(String);
      ScalarReadsBack(buf, pos + 1, Int32, |bytes|);
  }

  /** Any other type is refused there, leaving the cursor. */
  lemma OtherTypesRefused(buf: seq<Byte>, pos: int, v: Value, kind: Kind)
    requires ValidValue(v) && Holds(buf, pos, Encode(v)) && kind != KindOf(v)
    ensures ValueAt(buf, pos, kind) == Refused(pos)
  {
    assert buf[pos] == buf[pos..pos + |Encode(v)|][0] == Tag(KindOf(v));
  }

  // ---------------------------------------------------------------- containers

  function EncodeAll(vs: seq<Value>): seq<Byte>
    requires forall v <- vs :: ValidValue(v)
  {
    if vs == [] then [] else EncodeAll(vs[..|vs| - 1]) + Encode(vs[|vs| - 1])
  }

  /** A container's tag, its length, and its elements in iteration order. */
  function EncodeContainer(tag: Byte, vs: seq<Value>): seq<Byte>
    requires (forall v <- vs :: ValidValue(v)) && InRange(Int32, |vs|)
  {
    [tag] + EncodeScalar(Int32, |vs|) + EncodeAll(vs)
  }

  /** The element loop of a container read: a refused string stays empty, any other refused element is unset. */
  function ElementsAt(buf: seq<Byte>, pos: int, kind: Kind, len: int): Outcome<seq<Value>>
    decreases len
  {
    if len <= 0 then Got([], pos)
    else match ElementsAt(buf, pos, kind, len - 1)
      case Got(vs, p) => (
        match ValueAt(buf, p, kind)
        case Got(v, q) => Got(vs + [v], q)
        case Refused(q) => if kind == String then Got(vs + [Text([])], q) else Undefined
        case Undefined => Undefined)
      case _ => Undefined
  }

  /** A container read; at the end it moves the cursor on by the length once more. */
  function ContainerAt(buf: seq<Byte>, pos: int, tag: Byte, kind: Kind): Outcome<seq<Value>> {
    if !Has(buf, pos, 1) then Undefined
    else if buf[pos] != tag then Refused(pos)
    else match ScalarAt(buf, pos + 1, Int32)
      case Got(len, p) => (
        match ElementsAt(buf, p, kind, len)
        case Got(vs, q) => Got(vs, q + len)
        case _ => Undefined)
      case _ => Undefined
  }

  ghost predicate ElementsOk(vs: seq<Value>, kind: Kind) {
    forall v <- vs :: ValidValue(v) && KindOf(v) == kind
  }

  lemma OneMoreElement(buf: seq<Byte>, pos: int, kind: Kind, vs: seq<Value>, p: int, v: Value, q: int)
    requires ElementsAt(buf, pos, kind, |vs|) == Got(vs, p) && ValueAt(buf, p, kind) == Got(v, q)
    ensures ElementsAt(buf, pos, kind, |vs| + 1) == Got(vs + [v], q)
  {
    hide ValueAt;
  }

  lemma {:induction false} ElementsReadBack(buf: seq<Byte>, pos: int, kind: Kind, vs: seq<Value>)
    requires ElementsOk(vs, kind) && Holds(buf, pos, EncodeAll(vs))
    ensures ElementsAt(buf, pos, kind, |vs|) == Got(vs, pos + |EncodeAll(vs)|)
  {
    hide ValueAt, Encode, Holds;
    if vs != [] {
      hide ElementsAt;
      var n := |vs| - 1;
      var before, p := vs[..n], pos + |EncodeAll(vs[..n])|;
      assert EncodeAll(vs) == EncodeAll(before) + Encode(vs[n]);
      HoldsParts(buf, pos, EncodeAll(before), Encode(vs[n]));
      ElementsReadBack(buf, pos, kind, before);
      ValueReadsBack(buf, p, vs[n]);
      OneMoreElement(buf, pos, kind, before, p, vs[n], p + |Encode(vs[n])|);
      assert vs == before + [vs[n]];
    }
  }

  /** A written container reads back under its tag, with the cursor as many bytes past it as it has elements. */
  lemma ContainerReadsBack(buf: seq<Byte>, pos: int, tag: Byte, kind: Kind, vs: seq<Value>)
    requires ElementsOk(vs, kind) && InRange(Int32, |vs|) && Holds(buf, pos, EncodeContainer(tag, vs))
    ensures ContainerAt(buf, pos, tag, kind) == Got(vs, pos + |EncodeContainer(tag, vs)| + |vs|)
  {
    hide ScalarAt;
    hide ElementsAt;
    hide EncodeAll;
    var len := EncodeScalar(Int32, |vs|);
    HoldsParts(buf, pos, [tag] + len, EncodeAll(vs));
    HoldsParts(buf, pos, [tag], len);
    assert buf[pos..pos + 1][0] == tag;
    ScalarReadsBack(buf, pos + 1, Int32, |vs|);
    ElementsReadBack(buf, pos + 6, kind, vs);
  }

  /** A list is written under the vector's tag, so it reads back as a vector and never as a list. */
  lemma ListReadsAsVector(buf: seq<Byte>, pos: int, kind: Kind, vs: seq<Value>)
    requires ElementsOk(vs, kind) && InRange(Int32, |vs|) && Holds(buf, pos, EncodeContainer(VECTOR, vs))
    ensures ContainerAt(buf, pos, VECTOR, kind) == Got(vs, pos + |EncodeContainer(VECTOR, vs)| + |vs|)
    ensures ContainerAt(buf, pos, LIST, kind) == Refused(pos)
  {
    ContainerReadsBack(buf, pos, VECTOR, kind, vs);
  }

  // ---------------------------------------------------------------- whole streams

  /** What one `<<` writes: a value, or a container under its tag (VECTOR for vectors and lists, SET for sets). */
  datatype Item = Single(v: Value) | Container(tag: Byte, kind: Kind, vs: seq<Value>)

  /** The order in which a set iterates: elements differ, and the empty string, the least, comes first. */
  ghost predicate SetOrder(vs: seq<Value>) {
    && (forall i, j :: 0 <= i < j < |vs| ==> vs[i] != vs[j])
    && (forall i :: 0 < i < |vs| ==> vs[i] != Text([]))
  }

  ghost predicate ValidItem(x: Item) {
    match x
    case Single(v) => ValidValue(v)
    case Container(tag, kind, vs) =>
      && ElementsOk(vs, kind) && InRange(Int32, |vs|)
      && (tag == VECTOR || tag == SET) && (tag == SET ==> SetOrder(vs))
  }

  function EncodeItem(x: Item): seq<Byte>
    requires ValidItem(x)
  {
    match x
    case Single(v) => Encode(v)
    case Container(tag, kind, vs) => EncodeContainer(tag, vs)
  }

  function EncodeItems(xs: seq<Item>): seq<Byte>
    requires forall x <- xs :: ValidItem(x)
  {
    if xs == [] then [] else EncodeItem(xs[0]) + EncodeItems(xs[1..])
  }

  function Length(x: Item): nat {
    if x.Single? then 0 else |x.vs|
  }

  function Elements(vs: seq<Value>): set<Value> {
    set v | v in vs
  }

  predicate SameContents(tag: Byte, ws: seq<Value>, vs: seq<Value>) {
    if tag == SET then Elements(ws) == Elements(vs) else ws == vs
  }

  /** Reading `x` by its type: whether what comes back equals it (for a set, as a set). */
  function Reread(buf: seq<Byte>, pos: int, x: Item): Outcome<bool> {
    match x
    case Single(v) => (
      match ValueAt(buf, pos, KindOf(v))
      case Got(w, p) => Got(w == v, p)
      case Refused(p) => Refused(p)
      case Undefined => Undefined)
    case Container(tag, kind, vs) =>
      match ContainerAt(buf, pos, tag, kind)
      case Got(ws, p) => Got(SameContents(tag, ws, vs), p)
      case Refused(p) => Refused(p)
      case Undefined => Undefined
  }

  /** Reading all of `xs` in turn, up to the first that does not come back. */
  function Replay(buf: seq<Byte>, pos: int, xs: seq<Item>): Outcome<bool>
    decreases |xs|
  {
    if xs == [] then Got(true, pos)
    else match Reread(buf, pos, xs[0])
      case Got(same, p) => if same then Replay(buf, p, xs[1..]) else Got(false, p)
      case Refused(p) => Refused(p)
      case Undefined => Undefined
  }

  lemma ItemReadsBack(buf: seq<Byte>, pos: int, x: Item)
    requires ValidItem(x) && Holds(buf, pos, EncodeItem(x))
    ensures Reread(buf, pos, x) == Got(true, pos + |EncodeItem(x)| + Length(x))
  {
    match x
    case Single(v) => ValueReadsBack(buf, pos, v);
    case Container(tag, kind, vs) => ContainerReadsBack(buf, pos, tag, kind, vs);
  }

  /** Whatever is written reads back, provided only the last item is a container with anything in it. For
      scalars and strings alone the cursor is then at the end of them. */
  lemma {:induction false} ItemsReadBack(buf: seq<Byte>, pos: int, xs: seq<Item>)
    requires (forall x <- xs :: ValidItem(x)) && Holds(buf, pos, EncodeItems(xs))
    requires forall i :: 0 <= i < |xs| - 1 ==> Length(xs[i]) == 0
    ensures Replay(buf, pos, xs) ==
            Got(true, pos + |EncodeItems(xs)| + if xs == [] then 0 else Length(xs[|xs| - 1]))
    decreases |xs|
  {
    hide Reread;
    hide EncodeItem;
    hide Holds;
    if xs != [] {
      HoldsParts(buf, pos, EncodeItem(xs[0]), EncodeItems(xs[1..]));
      ItemReadsBack(buf, pos, xs[0]);
      if |xs| > 1 {
        ItemsReadBack(buf, pos + |EncodeItem(xs[0])|, xs[1..]);
      } else {
        assert Replay(buf, pos + |EncodeItem(xs[0])| + Length(xs[0]), xs[1..]).Got?;
      }
    }
  }

  // ---------------------------------------------------------------- a container spoils what follows it

  /** Bytes an element is written in. */
  function Size(v: Value): nat {
    if v.Scalar? then 1 + Width(v.kind) else 6 + |v.bytes|
  }

  lemma SizeIs(v: Value)
    requires ValidValue(v)
    ensures |Encode(v)| == Size(v)
  {
  }

  function SizeAll(vs: seq<Value>): nat {
    if vs == [] then 0 else SizeAll(vs[..|vs| - 1]) + Size(vs[|vs| - 1])
  }

  /** The same without the empty strings, which a refused read yields for nothing. */
  function SolidAll(vs: seq<Value>): nat {
    if vs == [] then 0
    else SolidAll(vs[..|vs| - 1]) + if vs[|vs| - 1] == Text([]) then 0 else Size(vs[|vs| - 1])
  }

  lemma {:induction false} SizeOfAll(vs: seq<Value>)
    requires forall v <- vs :: ValidValue(v)
    ensures |EncodeAll(vs)| == SizeAll(vs)
  {
    hide Encode, Size;
    if vs != [] {
      SizeOfAll(vs[..|vs| - 1]);
      SizeIs(vs[|vs| - 1]);
    }
  }

  lemma {:induction false} SolidAtMostSize(vs: seq<Value>)
    ensures SolidAll(vs) <= SizeAll(vs)
    ensures Text([]) !in vs ==> SolidAll(vs) == SizeAll(vs)
  {
    if vs != [] {
      SolidAtMostSize(vs[..|vs| - 1]);
    }
  }

  /** The buffer agrees with `bytes` wherever these are not zero. */
  ghost predicate Agrees(buf: seq<Byte>, pos: int, bytes: seq<Byte>) {
    Has(buf, pos, |bytes|) && forall i :: 0 <= i < |bytes| && bytes[i] != 0 ==> buf[pos + i] == bytes[i]
  }

  lemma AgreesBoth(buf: seq<Byte>, pos: int, a: seq<Byte>, b: seq<Byte>)
    requires Agrees(buf, pos, a) && Agrees(buf, pos + |a|, b)
    ensures Agrees(buf, pos, a + b)
  {
    forall i | 0 <= i < |a + b| && (a + b)[i] != 0
      ensures buf[pos + i] == (a + b)[i]
    {
      if i >= |a| {
        assert (a + b)[i] == b[i - |a|] && buf[(pos + |a|) + (i - |a|)] == b[i - |a|];
      }
    }
  }

  lemma HeldAgrees(buf: seq<Byte>, pos: int, bytes: seq<Byte>)
    requires Holds(buf, pos, bytes)
    ensures Agrees(buf, pos, bytes)
  {
    forall i | 0 <= i < |bytes|
      ensures buf[pos + i] == bytes[i]
    {
      assert buf[pos..pos + |bytes|][i] == bytes[i];
    }
  }

  /** A length that is read stands there as it would be written. */
  lemma LengthStands(buf: seq<Byte>, pos: int)
    requires ScalarAt(buf, pos, Int32).Got?
    ensures var len := ScalarAt(buf, pos, Int32).value; InRange(Int32, len) && Holds(buf, pos, EncodeScalar(Int32, len))
  {
    var bytes := buf[pos + 1..pos + 5];
    BytesRoundTrip(bytes);
    assert buf[pos..pos + 5] == [buf[pos]] + bytes;
  }

  lemma LengthyTextStands(buf: seq<Byte>, pos: int, len: int)
    requires Has(buf, pos, 1) && buf[pos] == Tag(String) && ScalarAt(buf, pos + 1, Int32) == Got(len, pos + 6)
    requires len >= 0 && Has(buf, pos + 6, len)
    ensures var v := Text(buf[pos + 6..pos + 6 + len]); ValidValue(v) && Holds(buf, pos, Encode(v))
  {
    hide ScalarAt, EncodeScalar;
    LengthStands(buf, pos + 1);
    var bytes := buf[pos + 6..pos + 6 + len];
    assert Holds(buf, pos, [Tag(String)]) && Holds(buf, pos + 6, bytes);
    assert |EncodeScalar(Int32, len)| == 5 by {
      FiveBytes(len);
    }
    HoldsBoth(buf, pos, [Tag(String)], EncodeScalar(Int32, len));
    HoldsBoth(buf, pos, [Tag(String)] + EncodeScalar(Int32, len), bytes);
  }

  lemma FiveBytes(len: int)
    requires InRange(Int32, len)
    ensures |EncodeScalar(Int32, len)| == 5 && EncodeScalar(Int32, len)[0] == Tag(Int32)
  {
  }

  /** So does a string; and a refused string is either a negative length, read over, or nothing at all. */
  lemma TextStands(buf: seq<Byte>, pos: int)
    requires !ValueAt(buf, pos, String).Undefined?
    ensures var r := ValueAt(buf, pos, String);
            if r.Got? then ValidValue(r.value) && r.value.Text? && Holds(buf, pos, Encode(r.value))
            else r.pos == pos || (r.pos == pos + 6 && Agrees(buf, pos, Encode(Text([]))))
  {
    hide ScalarAt, Encode, Holds;
    EmptyTextBytes();
    if buf[pos] == Tag(String) {
      LengthRead(buf, pos + 1);
      var len := ScalarAt(buf, pos + 1, Int32).value;
      if len >= 0 {
        LengthyTextStands(buf, pos, len);
      }
    }
  }

  lemma LengthRead(buf: seq<Byte>, pos: int)
    requires ScalarAt(buf, pos, Int32).Got?
    ensures ScalarAt(buf, pos, Int32).pos == pos + 5 <= |buf| && pos >= 0 && buf[pos] == Tag(Int32)
  {
  }

  lemma HoldsBoth(buf: seq<Byte>, pos: int, a: seq<Byte>, b: seq<Byte>)
    requires Holds(buf, pos, a) && Holds(buf, pos + |a|, b)
    ensures Holds(buf, pos, a + b)
  {
    assert buf[pos..pos + |a + b|] == buf[pos..pos + |a|] + buf[pos + |a|..pos + |a| + |b|];
  }

  lemma EmptyTextBytes()
    ensures ValidValue(Text([])) && Encode(Text([])) == [7, 3, 0, 0, 0, 0]
  {
    Limits();
    assert ToBytes(0, 1) == [0] && ToBytes(0, 2) == [0, 0];
    assert ToBytes(0, 4) == [0] + ToBytes(0, 3);
  }

  /** A value that is read takes its own size. */
  lemma ValueTakes(buf: seq<Byte>, pos: int, kind: Kind)
    requires ValueAt(buf, pos, kind).Got?
    ensures var r := ValueAt(buf, pos, kind); r.pos == pos + Size(r.value) <= |buf| && KindOf(r.value) == kind
  {
  }

  /** What the element loop did up to a position: `m` elements taken from the buffer, then nothing but refusals. */
  ghost predicate Took(buf: seq<Byte>, pos: int, kind: Kind, r: Outcome<seq<Value>>, m: nat) {
    && r.Got? && m <= |r.value| && r.pos == pos + SizeAll(r.value[..m]) <= |buf|
    && (forall i :: m <= i < |r.value| ==> r.value[i] == Text([]))
    && (m < |r.value| ==> kind == String && ValueAt(buf, r.pos, kind) == Refused(r.pos))
    && (kind == String ==> ElementsOk(r.value, String) && Agrees(buf, pos, EncodeAll(r.value[..m])))
  }

  lemma TookOneMore(buf: seq<Byte>, pos: int, kind: Kind, vs: seq<Value>, p: int, v: Value, q: int)
    requires pos >= 0 && Took(buf, pos, kind, Got(vs, p), |vs|) && q == p + Size(v) <= |buf|
    requires kind == String ==> ValidValue(v) && v.Text? && Agrees(buf, p, Encode(v))
    ensures Took(buf, pos, kind, Got(vs + [v], q), |vs| + 1)
  {
    hide Encode, Agrees, Size, ValueAt;
    var vs' := vs + [v];
    assert vs'[..|vs'| - 1] == vs && vs'[..|vs'|] == vs' && vs[..|vs|] == vs;
    if kind == String {
      SizeOfAll(vs);
      AgreesBoth(buf, pos, EncodeAll(vs), Encode(v));
    }
  }

  /** Reading one more element. */
  lemma GotTakes(buf: seq<Byte>, pos: int, kind: Kind, vs: seq<Value>, p: int, m: nat, v: Value, q: int)
    requires pos >= 0 && Took(buf, pos, kind, Got(vs, p), m) && ValueAt(buf, p, kind) == Got(v, q)
    ensures m == |vs| && Took(buf, pos, kind, Got(vs + [v], q), |vs| + 1)
  {
    hide Encode, Size, Agrees, Holds, ValueAt;
    ValueTakes(buf, p, kind);
    if kind == String {
      TextStands(buf, p);
      HeldAgrees(buf, p, Encode(v));
    }
    TookOneMore(buf, pos, kind, vs, p, v, q);
  }

  lemma RefusedTakes(buf: seq<Byte>, pos: int, vs: seq<Value>, p: int, m: nat, q: int) returns (m': nat)
    requires pos >= 0 && Took(buf, pos, String, Got(vs, p), m) && ValueAt(buf, p, String) == Refused(q)
    ensures Took(buf, pos, String, Got(vs + [Text([])], q), m') && (m < |vs| || q == p ==> m' == m)
  {
    hide Encode, Size, Agrees, Holds, ValueAt;
    TextStands(buf, p);
    EmptyTextBytes();
    if q == p {
      assert (vs + [Text([])])[..m] == vs[..m];
      m' := m;
    } else {
      SizeOfEmpty();
      AgreesFits(buf, p, Encode(Text([])));
      TookOneMore(buf, pos, String, vs, p, Text([]), q);
      m' := |vs| + 1;
    }
  }

  /** The element loop takes each element's bytes until a refused string stops it for good. */
  lemma {:induction false} ElementsTake(buf: seq<Byte>, pos: int, kind: Kind, len: int) returns (m: nat)
    requires 0 <= pos <= |buf| && ElementsAt(buf, pos, kind, len).Got?
    ensures |ElementsAt(buf, pos, kind, len).value| == if len < 0 then 0 else len
    ensures Took(buf, pos, kind, ElementsAt(buf, pos, kind, len), m)
    ensures len > 0 && ValueAt(buf, pos, kind) == Refused(pos) ==> m == 0
    decreases len
  {
    if len <= 0 {
      m := 0;
      NothingAgrees(buf, pos);
    } else {
      hide Took, ValueAt;
      m := ElementsTake(buf, pos, kind, len - 1);
      var r := ElementsAt(buf, pos, kind, len - 1);
      match ValueAt(buf, r.pos, kind)
      case Got(v, q) =>
        GotTakes(buf, pos, kind, r.value, r.pos, m, v, q);
        m := len;
      case Refused(q) =>
        m := RefusedTakes(buf, pos, r.value, r.pos, m, q);
    }
  }

  lemma NothingAgrees(buf: seq<Byte>, pos: int)
    requires 0 <= pos <= |buf|
    ensures Agrees(buf, pos, [])
  {
  }

  lemma AgreesFits(buf: seq<Byte>, pos: int, bytes: seq<Byte>)
    requires Agrees(buf, pos, bytes)
    ensures 0 <= pos && pos + |bytes| <= |buf|
  {
  }

  lemma SizeOfEmpty()
    ensures Size(Text([])) == 6
  {
  }

  lemma {:induction false} SolidPrefix(ws: seq<Value>, m: nat)
    requires m <= |ws| && forall i :: m <= i < |ws| ==> ws[i] == Text([])
    ensures SolidAll(ws) <= SizeAll(ws[..m])
    decreases ws
  {
    if m == |ws| {
      assert ws[..m] == ws;
      SolidAtMostSize(ws);
    } else {
      assert ws[..|ws| - 1][..m] == ws[..m];
      SolidPrefix(ws[..|ws| - 1], m);
    }
  }

  lemma {:induction false} SolidWithout(ws: seq<Value>, i: nat)
    requires i < |ws| && ws[i] != Text([])
    ensures SolidAll(ws) == SolidAll(ws[..i] + ws[i + 1..]) + Size(ws[i])
  {
    var n := |ws| - 1;
    var ws' := ws[..i] + ws[i + 1..];
    if i == n {
      assert ws' == ws[..n];
    } else {
      SolidWithout(ws[..n], i);
      assert ws'[..|ws'| - 1] == ws[..n][..i] + ws[..n][i + 1..];
    }
  }

  /** Different elements that all occur need no more room than everything that occurs. */
  lemma {:induction false} Cover(vs: seq<Value>, ws: seq<Value>)
    requires forall i, j :: 0 <= i < j < |vs| ==> vs[i] != vs[j]
    requires forall v <- vs :: v == Text([]) || v in ws
    ensures SolidAll(vs) <= SolidAll(ws)
    decreases |vs|
  {
    hide Size;
    if vs != [] {
      var n := |vs| - 1;
      var v := vs[n];
      if v == Text([]) {
        Cover(vs[..n], ws);
      } else {
        assert v in vs;
        var i :| 0 <= i < |ws| && ws[i] == v;
        var ws' := ws[..i] + ws[i + 1..];
        forall u <- vs[..n] | u != Text([])
          ensures u in ws'
        {
          assert u in vs && u in ws[..i] + [v] + ws[i + 1..] by {
            assert ws == ws[..i] + [v] + ws[i + 1..];
          }
        }
        SolidWithout(ws, i);
        Cover(vs[..n], ws');
      }
    }
  }

  lemma SameIsSolid(tag: Byte, ws: seq<Value>, vs: seq<Value>)
    requires SameContents(tag, ws, vs) && (tag == SET ==> SetOrder(vs))
    ensures SolidAll(vs) <= SolidAll(ws) && (vs != [] ==> ws != [])
  {
    if tag == SET {
      forall v <- vs
        ensures v in ws
      {
        assert v in Elements(vs) && v in Elements(ws);
      }
      assert vs != [] ==> vs[0] in ws;
      Cover(vs, ws);
    }
  }

  /** The parts of a container read that succeeded. */
  lemma ContainerParts(buf: seq<Byte>, pos: int, tag: Byte, kind: Kind) returns (len: int)
    requires ContainerAt(buf, pos, tag, kind).Got?
    ensures pos >= 0 && Holds(buf, pos, [tag]) && Has(buf, pos, 6)
    ensures InRange(Int32, len) && Holds(buf, pos + 1, EncodeScalar(Int32, len))
    ensures ElementsAt(buf, pos + 6, kind, len).Got?
    ensures ContainerAt(buf, pos, tag, kind).value == ElementsAt(buf, pos + 6, kind, len).value
    ensures ContainerAt(buf, pos, tag, kind).pos == ElementsAt(buf, pos + 6, kind, len).pos + len
  {
    hide ElementsAt;
    LengthRead(buf, pos + 1);
    LengthStands(buf, pos + 1);
    len := ScalarAt(buf, pos + 1, Int32).value;
  }

  /** Bytes an item cannot do without. */
  ghost function Room(x: Item): nat {
    if x.Single? then Size(x.v) else 6 + SolidAll(x.vs)
  }

  /** From any buffer and position, an item can only come back from as many bytes as it needs, and a container
      with elements moves the cursor further still. */
  lemma ItemTakesRoom(buf: seq<Byte>, pos: int, x: Item)
    requires ValidItem(x) && Reread(buf, pos, x).Got? && Reread(buf, pos, x).value
    ensures 0 <= pos && pos + Room(x) <= |buf|
    ensures x.Single? || x.vs != [] ==> Reread(buf, pos, x).pos >= pos + Room(x) + Length(x)
  {
    match x
    case Single(v) =>
      ValueTakes(buf, pos, KindOf(v));
      assert pos >= 0 by {
        assert Has(buf, pos, 1);
      }
    case Container(tag, kind, vs) =>
      var len := ContainerParts(buf, pos, tag, kind);
      var m := ElementsTake(buf, pos + 6, kind, len);
      ContainerRoom(buf, pos, x, len, m);
  }

  lemma ContainerRoom(buf: seq<Byte>, pos: int, x: Item, len: int, m: nat)
    requires ValidItem(x) && x.Container? && Reread(buf, pos, x).Got? && Reread(buf, pos, x).value
    requires var r := ElementsAt(buf, pos + 6, x.kind, len);
             && Took(buf, pos + 6, x.kind, r, m) && |r.value| == (if len < 0 then 0 else len)
             && ContainerAt(buf, pos, x.tag, x.kind) == Got(r.value, r.pos + len)
    ensures pos + Room(x) <= |buf|
    ensures x.vs != [] ==> Reread(buf, pos, x).pos >= pos + Room(x) + |x.vs|
  {
    hide ContainerAt, ElementsAt, SizeAll, SolidAll, Agrees;
    var ws := ElementsAt(buf, pos + 6, x.kind, len).value;
    SolidPrefix(ws, m);
    SameIsSolid(x.tag, ws, x.vs);
    if x.tag == SET {
      ElementsAtMost(ws);
      DistinctElements(x.vs);
    }
  }

  lemma {:induction false} ElementsAtMost(vs: seq<Value>)
    ensures |Elements(vs)| <= |vs|
  {
    if vs != [] {
      var n := |vs| - 1;
      ElementsAtMost(vs[..n]);
      assert Elements(vs) == Elements(vs[..n]) + {vs[n]};
    }
  }

  lemma {:induction false} DistinctElements(vs: seq<Value>)
    requires forall i, j :: 0 <= i < j < |vs| ==> vs[i] != vs[j]
    ensures |Elements(vs)| == |vs|
  {
    if vs != [] {
      var n := |vs| - 1;
      DistinctElements(vs[..n]);
      assert Elements(vs) == Elements(vs[..n]) + {vs[n]} && vs[n] !in Elements(vs[..n]);
    }
  }

  // ---------------------------------------------------------------- a shifted read stays shifted

  /** If a text agrees with itself `s` places on, its first byte turns up again just past its end. */
  lemma March(buf: seq<Byte>, p: int, s: nat, text: seq<Byte>, i: nat) returns (j: nat)
    requires s > 0 && i < |text| && Holds(buf, p, text) && Agrees(buf, p + s, text)
    requires text[0] != 0 && text[i] == text[0]
    ensures |text| <= j < |text| + s && p + j < |buf| && buf[p + j] == text[0]
    decreases |text| - i
  {
    assert buf[(p + s) + i] == text[i];
    j := i + s;
    if j < |text| {
      assert text[j] == buf[p..p + |text|][j];
      j := March(buf, p, s, text, j);
    }
  }

  lemma {:induction false} EncodeAllSplit(vs: seq<Value>, m: nat)
    requires m <= |vs| && forall v <- vs :: ValidValue(v)
    ensures EncodeAll(vs) == EncodeAll(vs[..m]) + EncodeAll(vs[m..])
    decreases vs
  {
    hide Encode;
    if m == |vs| {
      assert vs[..m] == vs;
    } else {
      var n := |vs| - 1;
      EncodeAllSplit(vs[..n], m);
      assert vs[..n][..m] == vs[..m] && vs[m..][..n - m] == vs[..n][m..];
    }
  }

  lemma {:induction false} EmptyStringBytes(vs: seq<Value>)
    requires forall v <- vs :: v == Text([])
    ensures (forall v <- vs :: ValidValue(v)) && |EncodeAll(vs)| == 6 * |vs|
    ensures forall b <- EncodeAll(vs) :: b == 7 || b == 3 || b == 0
  {
    EmptyTextBytes();
    hide Encode;
    if vs != [] {
      var n := |vs| - 1;
      assert vs[n] in vs && forall v <- vs[..n] :: v in vs;
      EmptyStringBytes(vs[..n]);
      assert EncodeAll(vs) == EncodeAll(vs[..n]) + [7, 3, 0, 0, 0, 0];
    }
  }

  /** A vector of strings read `s` places too far: were the end not passed, its tag would have to occur among the
      bytes of the empty strings at its own end. */
  lemma VectorEndsBeyond(buf: seq<Byte>, p: int, s: nat, vs: seq<Value>, len: int, m: nat)
    requires s > 0 && vs != [] && ElementsOk(vs, String) && InRange(Int32, |vs|)
    requires Holds(buf, p, EncodeContainer(VECTOR, vs))
    requires Holds(buf, p + s, [VECTOR]) && len == |vs| && Holds(buf, p + s + 1, EncodeScalar(Int32, len))
    requires m <= |vs| && (forall i :: m <= i < |vs| ==> vs[i] == Text([]))
    requires Agrees(buf, p + s + 6, EncodeAll(vs[..m]))
    ensures 6 + SizeAll(vs[..m]) + s > |EncodeContainer(VECTOR, vs)|
  {
    hide Encode, Holds, Agrees, EncodeScalar, EncodeAll;
    var head := [VECTOR] + EncodeScalar(Int32, |vs|);
    var text, tail := head + EncodeAll(vs[..m]), EncodeAll(vs[m..]);
    EncodeAllSplit(vs, m);
    SizeOfAll(vs[..m]);
    EmptyStringBytes(vs[m..]);
    FiveBytes(|vs|);
    assert EncodeContainer(VECTOR, vs) == text + tail;
    if s <= |tail| {
      HeldAgrees(buf, p + s, [VECTOR]);
      HeldAgrees(buf, p + s + 1, EncodeScalar(Int32, len));
      AgreesBoth(buf, p + s, [VECTOR], EncodeScalar(Int32, len));
      AgreesBoth(buf, p + s, head, EncodeAll(vs[..m]));
      HoldsParts(buf, p, text, tail);
      var j := March(buf, p, s, text, 0);
      HeldByte(buf, p + |text|, tail, j - |text|);
    }
  }

  lemma HeldByte(buf: seq<Byte>, pos: int, bytes: seq<Byte>, i: nat)
    requires Holds(buf, pos, bytes) && i < |bytes|
    ensures 0 <= pos + i < |buf| && buf[pos + i] == bytes[i] && bytes[i] in bytes
  {
    assert buf[pos..pos + |bytes|][i] == bytes[i];
  }

  lemma SetBytes(vs: seq<Value>)
    requires vs != [] && vs[0] == Text([]) && ElementsOk(vs, String) && InRange(Int32, |vs|)
    ensures EncodeContainer(SET, vs) ==
            [SET] + EncodeScalar(Int32, |vs|) + ([7, 3, 0, 0, 0, 0] + EncodeAll(vs[1..]))
  {
    hide EncodeScalar, Encode, InRange;
    EmptyTextBytes();
    EncodeAllSplit(vs, 1);
    assert EncodeAll(vs[..1]) == EncodeAll([]) + Encode(Text([])) by {
      assert vs[..1][..0] == [] && vs[..1][0] == vs[0];
    }
    assert EncodeAll([]) + Encode(Text([])) == Encode(Text([]));
  }

  /** Where a byte can come up in a set that begins with the empty string. */
  lemma PlaceOf(text: seq<Byte>, len: seq<Byte>, rest: seq<Byte>, s: nat)
    requires text == [SET] + len + ([7, 3, 0, 0, 0, 0] + rest) && |len| == 5 && len[0] == 3
    requires 0 < s <= 6 && text[s] == SET
    ensures 2 <= s <= 5 && len[s - 1] == SET && |text| >= 12 && text[s + 6] == 0
  {
    assert text[1] == len[0] && text[6] == 7 && s < 6 ==> text[s] == len[s - 1];
    assert s < 6 ==> text[s + 6] == ([7, 3, 0, 0, 0, 0] + rest)[s];
  }

  /** The tag of a set that has the empty string occurs in front, or else in the length, and then it is
      followed, six places on, by a zero. */
  lemma SetTagPlace(buf: seq<Byte>, p: int, s: nat, vs: seq<Value>)
    requires 0 < s <= 6 && vs != [] && vs[0] == Text([]) && ElementsOk(vs, String) && InRange(Int32, |vs|)
    requires Holds(buf, p, EncodeContainer(SET, vs)) && Has(buf, p + s, 1) && buf[p + s] == SET
    ensures Has(buf, p + s + 6, 1) && buf[p + s + 6] == 0 && |vs| > 1
  {
    hide EncodeContainer, EncodeScalar, EncodeAll, Holds, InRange;
    var text, len, rest := EncodeContainer(SET, vs), EncodeScalar(Int32, |vs|), EncodeAll(vs[1..]);
    SetBytes(vs);
    FiveBytes(|vs|);
    HeldByte(buf, p, text, s);
    PlaceOf(text, len, rest, s);
    HeldByte(buf, p, text, s + 6);
    if |vs| == 1 {
      OneBytes();
    }
  }

  lemma OneBytes()
    ensures EncodeScalar(Int32, 1) == [3, 1, 0, 0, 0]
  {
    assert ToBytes(0, 1) == [0] && ToBytes(0, 2) == [0, 0];
    assert ToBytes(0, 3) == [0] + ToBytes(0, 2);
    assert ToBytes(1, 4) == [1] + ToBytes(0, 3);
  }

  /** A set with the empty string read up to six places too far finds nothing but refusals. */
  lemma SetNotThere(buf: seq<Byte>, p: int, s: nat, vs: seq<Value>, ws: seq<Value>, m: nat)
    requires 0 < s <= 6 && vs != [] && vs[0] == Text([]) && ElementsOk(vs, String) && InRange(Int32, |vs|)
    requires SetOrder(vs) && Holds(buf, p, EncodeContainer(SET, vs)) && Holds(buf, p + s, [SET])
    requires ValueAt(buf, p + s + 6, String) == Refused(p + s + 6) ==> m == 0
    requires m <= |ws| && forall i :: m <= i < |ws| ==> ws[i] == Text([])
    ensures Elements(ws) != Elements(vs)
  {
    hide Holds, EncodeContainer, Encode;
    HeldByte(buf, p + s, [SET], 0);
    SetTagPlace(buf, p, s, vs);
    assert ValueAt(buf, p + s + 6, String) == Refused(p + s + 6);
    assert vs[1] in Elements(vs) && vs[1] !in Elements(ws);
  }

  lemma {:induction false} SizeWithEmpty(vs: seq<Value>)
    requires vs != [] && vs[0] == Text([]) && forall i :: 0 < i < |vs| ==> vs[i] != Text([])
    ensures SizeAll(vs) == SolidAll(vs) + 6
  {
    if |vs| > 1 {
      SizeWithEmpty(vs[..|vs| - 1]);
    } else {
      assert vs[..0] == [];
    }
  }

  lemma ContainerSize(tag: Byte, vs: seq<Value>)
    requires (forall v <- vs :: ValidValue(v)) && InRange(Int32, |vs|)
    ensures |EncodeContainer(tag, vs)| == 6 + SizeAll(vs)
  {
    hide Encode;
    SizeOfAll(vs);
    FiveBytes(|vs|);
  }

  /** A container with an empty string, read too far on, ends beyond its own end. */
  lemma StringsEndBeyond(buf: seq<Byte>, p: int, s: nat, x: Item)
    requires ValidItem(x) && x.Container? && Text([]) in x.vs && Holds(buf, p, EncodeItem(x))
    requires s > 0 && Reread(buf, p + s, x).Got? && Reread(buf, p + s, x).value
    ensures p + |EncodeItem(x)| < |buf| && p + |EncodeItem(x)| < Reread(buf, p + s, x).pos
  {
    hide ElementsAt, ValueAt, EncodeContainer, EncodeAll, EncodeScalar, Encode;
    hide Holds, SizeAll, SolidAll, Agrees, InRange;
    var len := ContainerParts(buf, p + s, x.tag, x.kind);
    var m := ElementsTake(buf, p + s + 6, x.kind, len);
    var ws := ElementsAt(buf, p + s + 6, x.kind, len).value;
    ContainerSize(x.tag, x.vs);
    assert KindOf(Text([])) == x.kind;
    if x.tag == SET {
      assert x.vs[0] == Text([]);
      SizeWithEmpty(x.vs);
      SolidPrefix(ws, m);
      SameIsSolid(SET, ws, x.vs);
      if s <= 6 {
        SetNotThere(buf, p, s, x.vs, ws, m);
      }
    } else {
      VectorEndsBeyond(buf, p, s, x.vs, len, m);
    }
  }

  /** An item other than an empty container, read too far on, ends beyond its own end. */
  lemma ItemEndsBeyond(buf: seq<Byte>, p: int, s: nat, x: Item)
    requires ValidItem(x) && (x.Single? || x.vs != []) && Holds(buf, p, EncodeItem(x))
    requires s > 0 && Reread(buf, p + s, x).Got? && Reread(buf, p + s, x).value
    ensures p + |EncodeItem(x)| < |buf| && p + |EncodeItem(x)| < Reread(buf, p + s, x).pos
  {
    if x.Container? && Text([]) in x.vs {
      StringsEndBeyond(buf, p, s, x);
    } else {
      hide Reread, Encode, EncodeContainer;
      ItemTakesRoom(buf, p + s, x);
      if x.Single? {
        SizeIs(x.v);
      } else {
        ContainerSize(x.tag, x.vs);
        SolidAtMostSize(x.vs);
      }
    }
  }

  ghost predicate ReadsBack(buf: seq<Byte>, pos: int, xs: seq<Item>) {
    Replay(buf, pos, xs).Got? && Replay(buf, pos, xs).value
  }

  ghost predicate EmptyContainer(x: Item) {
    x.Container? && x.vs == []
  }

  /** Once the cursor is too far on, what is left at the end of the buffer does not read back. */
  lemma {:induction false} ShiftStays(buf: seq<Byte>, p: int, s: nat, xs: seq<Item>)
    requires s > 0 && xs != [] && (forall x <- xs :: ValidItem(x) && !EmptyContainer(x))
    requires Holds(buf, p, EncodeItems(xs)) && p + |EncodeItems(xs)| == |buf|
    ensures !ReadsBack(buf, p + s, xs)
    decreases |xs|
  {
    hide Reread, EncodeItem, Holds;
    var r := Reread(buf, p + s, xs[0]);
    if r.Got? && r.value {
      HoldsParts(buf, p, EncodeItem(xs[0]), EncodeItems(xs[1..]));
      ItemEndsBeyond(buf, p, s, xs[0]);
      var next := p + |EncodeItem(xs[0])|;
      ShiftStays(buf, next, r.pos - next, xs[1..]);
    }
  }

  lemma {:induction false} SpoiltByContainer(buf: seq<Byte>, p: int, xs: seq<Item>, i: nat)
    requires i < |xs| - 1 && Length(xs[i]) > 0 && forall j :: 0 <= j < i ==> Length(xs[j]) == 0
    requires (forall x <- xs :: ValidItem(x)) && forall j :: i < j < |xs| ==> !EmptyContainer(xs[j])
    requires Holds(buf, p, EncodeItems(xs)) && p + |EncodeItems(xs)| == |buf|
    ensures !ReadsBack(buf, p, xs)
    decreases i
  {
    hide Reread, EncodeItem, Holds;
    HoldsParts(buf, p, EncodeItem(xs[0]), EncodeItems(xs[1..]));
    ItemReadsBack(buf, p, xs[0]);
    var next := p + |EncodeItem(xs[0])|;
    if i == 0 {
      ShiftStays(buf, next, Length(xs[0]), xs[1..]);
    } else {
      SpoiltByContainer(buf, next, xs[1..], i - 1);
    }
  }

  lemma FirstFull(xs: seq<Item>, n: nat) returns (i: nat)
    requires n < |xs| && Length(xs[n]) > 0
    ensures i <= n && Length(xs[i]) > 0 && forall j :: 0 <= j < i ==> Length(xs[j]) == 0
  {
    i := 0;
    while Length(xs[i]) == 0
      invariant i <= n && forall j :: 0 <= j < i ==> Length(xs[j]) == 0
      decreases n - i
    {
      i := i + 1;
    }
  }

  /** A stream reads back exactly when nothing follows a container with elements, unless an empty container does. */
  lemma ContainerMustBeLast(xs: seq<Item>)
    requires forall x <- xs :: ValidItem(x)
    requires forall i, j :: 0 <= i < j < |xs| && Length(xs[i]) > 0 ==> !EmptyContainer(xs[j])
    ensures ReadsBack(EncodeItems(xs), 0, xs) <==> forall i :: 0 <= i < |xs| - 1 ==> Length(xs[i]) == 0
  {
    hide EncodeItems, Replay, Holds;
    var buf := EncodeItems(xs);
    HoldsWhole(buf);
    if n :| 0 <= n < |xs| - 1 && Length(xs[n]) > 0 {
      var i := FirstFull(xs, n);
      SpoiltByContainer(buf, 0, xs, i);
    } else {
      ItemsReadBack(buf, 0, xs);
    }
  }

  lemma ThreeItems(x: Item, y: Item, z: Item)
    requires ValidItem(x) && ValidItem(y) && ValidItem(z)
    ensures EncodeItems([x, y, z]) == EncodeItem(x) + EncodeItem(y) + EncodeItem(z)
  {
    hide EncodeItem;
    assert [x, y, z][1..] == [y, z] && [y, z][1..] == [z] && [z][1..] == [];
    assert EncodeItems([z]) == EncodeItem(z);
    assert EncodeItems([y, z]) == EncodeItem(y) + EncodeItem(z);
  }

  lemma ReplayThree(buf: seq<Byte>, x: Item, y: Item, z: Item, p: int, q: int, r: int)
    requires Reread(buf, 0, x) == Got(true, p) && Reread(buf, p, y) == Got(true, q) && Reread(buf, q, z) == Got(true, r)
    ensures Replay(buf, 0, [x, y, z]) == Got(true, r)
  {
    hide Reread;
    assert [x, y, z][1..] == [y, z] && [y, z][1..] == [z] && [z][1..] == [];
    assert Replay(buf, q, [z]) == Got(true, r);
    assert Replay(buf, p, [y, z]) == Got(true, r);
  }

  function FullVector(): Item {
    Container(VECTOR, Bool, seq(12, _ => Scalar(Bool, 0)))
  }

  function EmptyVector(): Item {
    Container(VECTOR, Bool, [])
  }

  function Crafted(): seq<Byte> {
    [8, 3, 244, 255, 255, 255]
  }

  function CraftedText(): Item {
    Single(Text(Crafted()))
  }

  lemma CraftedItems()
    ensures ValidItem(FullVector()) && |EncodeItem(FullVector())| == 30 && Length(FullVector()) == 12
    ensures ValidItem(EmptyVector()) && |EncodeItem(EmptyVector())| == 6
    ensures ValidItem(CraftedText()) && |EncodeItem(CraftedText())| == 12 && Length(CraftedText()) == 0
    ensures EncodeItem(CraftedText())[6..] == Crafted()
  {
    Limits();
    SizeOfFlags(FullVector().vs);
    SizeOfAll(FullVector().vs);
  }

  /** The containers must not be empty: here the bytes of a string read as an empty vector of length -12, which
      takes the cursor back over the 12 bytes that the first vector moved it too far. */
  lemma EmptyContainerCanRecover() returns (xs: seq<Item>)
    ensures (forall x <- xs :: ValidItem(x)) && |xs| == 3 && Length(xs[0]) == 12
    ensures Replay(EncodeItems(xs), 0, xs) == Got(true, |EncodeItems(xs)|)
  {
    hide *;
    var x, y, z := FullVector(), EmptyVector(), CraftedText();
    CraftedItems();
    xs := [x, y, z];
    ThreeItems(x, y, z);
    var buf, first, second, third := EncodeItems(xs), EncodeItem(x), EncodeItem(y), EncodeItem(z);
    HoldsWhole(buf);
    HoldsParts(buf, 0, first + second, third);
    HoldsParts(buf, 0, first, second);
    assert third == third[..6] + Crafted();
    HoldsParts(buf, 36, third[..6], Crafted());
    ItemReadsBack(buf, 0, x);
    CraftedHeader(buf, 42);
    ItemReadsBack(buf, 36, z);
    ReplayThree(buf, x, y, z, 42, 36, 48);
  }

  lemma {:induction false} SizeOfFlags(vs: seq<Value>)
    requires forall v <- vs :: Size(v) == 2
    ensures SizeAll(vs) == 2 * |vs|
  {
    if vs != [] {
      SizeOfFlags(vs[..|vs| - 1]);
    }
  }

  lemma Limits()
    ensures Limit(4) == 0x1_0000_0000 && Limit(2) == 0x1_0000
  {
    assert Limit(1) == 256;
    assert Limit(3) == 256 * Limit(2);
  }

  lemma CraftedHeader(buf: seq<Byte>, pos: nat)
    requires Holds(buf, pos, Crafted())
    ensures Reread(buf, pos, EmptyVector()) == Got(true, pos - 6)
  {
    var len: seq<Byte> := [244, 255, 255, 255];
    var head := buf[pos..pos + 6];
    assert head[0] == buf[pos] && head[1] == buf[pos + 1] && head[2..] == buf[pos + 2..pos + 6] == len;
    Limits();
    assert FromBytes([255]) == 255 && len[1..] == [255, 255, 255] && len[1..][1..] == [255, 255];
    assert [255, 255][1..] == [255];
    assert FromBytes([255, 255]) == 65535 && FromBytes(len[1..]) == 0xFF_FFFF;
    assert FromBytes(len) == 0xFFFF_FFF4;
    assert ScalarAt(buf, pos + 1, Int32) == Got(-12, pos + 6);
  }

  // ---------------------------------------------------------------- the program

  /** A longer element loop is defined only if the shorter is. */
  lemma {:induction false} ElementsDefined(buf: seq<Byte>, pos: int, kind: Kind, i: int, len: int)
    requires i <= len && !ElementsAt(buf, pos, kind, len).Undefined?
    ensures ElementsAt(buf, pos, kind, i).Got?
    decreases len - i
  {
    if i < len {
      ElementsDefined(buf, pos, kind, i, len - 1);
    }
  }

  class DataStream {
    var buf: seq<Byte>
    var cap: nat
    var pos: int

    ghost predicate Valid()
      reads this
    {
      |buf| <= cap
    }

    constructor ()
      ensures Valid() && buf == [] && pos == 0
    {
      buf, cap, pos := [], 0, 0;
    }

    /** `reserve`: room for `len` more, by doubling no further than needed. */
    method Reserve(len: nat)
      requires Valid()
      modifies this`cap
      ensures |buf| + len <= cap
      ensures |buf| + len <= old(cap) ==> cap == old(cap)
      ensures |buf| + len > old(cap) ==>
                && cap < 2 * (|buf| + len)
                && exists k: nat :: cap == (if old(cap) == 0 then 1 else old(cap)) * Arith.Pow2(k)
    {
      var size := |buf|;
      if size + len > cap {
        var c := cap;
        ghost var base, k: nat := if cap == 0 then 1 else cap, 0;
        while size + len > c
          invariant cap == old(cap)
          invariant if c == 0 then cap == 0 && k == 0
                    else c == base * Arith.Pow2(k) && (c == cap || c < 2 * (size + len))
          decreases size + len - c
        {
          if c == 0 {
            c := 1;
          } else {
            Arith.MulAssoc(base, Arith.Pow2(k), 2);
            assert Arith.Pow2(k + 1) == Arith.Pow2(k) * 2;
            c, k := c * 2, k + 1;
          }
        }
        assert c == base * Arith.Pow2(k);
        cap := c;
      }
    }

    /** The raw `write`. */
    method WriteBytes(data: seq<Byte>)
      requires Valid()
      modifies this`buf, this`cap
      ensures Valid() && buf == old(buf) + data
    {
      Reserve(|data|);
      buf := buf + data;
    }

    /** `write` of bool, char, the integers, float and double. */
    method WriteScalar(kind: Kind, n: int)
      requires Valid() && kind != String && InRange(kind, n)
      modifies this`buf, this`cap
      ensures Valid() && buf == old(buf) + EncodeScalar(kind, n)
    {
      WriteBytes([Tag(kind)]);
      WriteBytes(ToBytes(ToRaw(kind, n), Width(kind)));
    }

    /** `write` of a string. */
    method WriteText(bytes: seq<Byte>)
      requires Valid() && InRange(Int32, |bytes|)
      modifies this`buf, this`cap
      ensures Valid() && buf == old(buf) + Encode(Text(bytes))
    {
      hide EncodeScalar;
      WriteBytes([Tag(String)]);
      WriteScalar(Int32, |bytes|);
      WriteBytes(bytes);
      ghost var tag, len := [Tag(String)], EncodeScalar(Int32, |bytes|);
      assert ((old(buf) + tag) + len) + bytes == old(buf) + ((tag + len) + bytes);
    }

    method WriteValue(v: Value)
      requires Valid() && ValidValue(v)
      modifies this`buf, this`cap
      ensures Valid() && buf == old(buf) + Encode(v)
    {
      match v
      case Scalar(kind, n) => WriteScalar(kind, n);
      case Text(bytes) => WriteText(bytes);
    }

    /** `write` of a vector, set or list: its elements in iteration order. */
    method WriteContainer(tag: Byte, vs: seq<Value>)
      requires Valid() && (forall v <- vs :: ValidValue(v)) && InRange(Int32, |vs|)
      modifies this`buf, this`cap
      ensures Valid() && buf == old(buf) + EncodeContainer(tag, vs)
    {
      hide Encode;
      WriteBytes([tag]);
      WriteScalar(Int32, |vs|);
      ghost var start := buf;
      for i := 0 to |vs|
        invariant Valid() && buf == start + EncodeAll(vs[..i])
      {
        assert vs[..i + 1][..i] == vs[..i] && vs[i] in vs;
        WriteValue(vs[i]);
      }
      assert vs[..|vs|] == vs;
    }

    /** `<<` on each item in turn. */
    method WriteItems(xs: seq<Item>)
      requires Valid() && forall x <- xs :: ValidItem(x)
      modifies this`buf, this`cap
      ensures Valid() && buf == old(buf) + EncodeItems(xs)
    {
      hide EncodeItem;
      for i := 0 to |xs|
        invariant Valid() && old(buf) + EncodeItems(xs) == buf + EncodeItems(xs[i..])
      {
        ghost var before := buf;
        WriteItem(xs[i]);
        assert xs[i..][1..] == xs[i + 1..];
        assert before + EncodeItems(xs[i..]) == (before + EncodeItem(xs[i])) + EncodeItems(xs[i + 1..]);
      }
    }

    method WriteItem(x: Item)
      requires Valid() && ValidItem(x)
      modifies this`buf, this`cap
      ensures Valid() && buf == old(buf) + EncodeItem(x)
    {
      match x
      case Single(v) => WriteValue(v);
      case Container(tag, _, vs) => WriteContainer(tag, vs);
    }

    /** `read` of a scalar; a refused read leaves the caller's variable alone. */
    method ReadScalar(kind: Kind, n: int) returns (ok: bool, n': int)
      requires !ScalarAt(buf, pos, kind).Undefined?
      modifies this`pos
      ensures match ScalarAt(buf, old(pos), kind)
              case Got(value, p) => ok && n' == value && pos == p
              case Refused(p) => !ok && n' == n && pos == p
    {
      if buf[pos] != Tag(kind) {
        return false, n;
      }
      pos := pos + 1;
      n' := FromRaw(kind, FromBytes(buf[pos..pos + Width(kind)]));
      pos := pos + Width(kind);
      ok := true;
    }

    /** `read` of a string. A negative length is refused after it has been read over. */
    method ReadText(bytes: seq<Byte>) returns (ok: bool, bytes': seq<Byte>)
      requires !TextAt(buf, pos).Undefined?
      modifies this`pos
      ensures match TextAt(buf, old(pos))
              case Got(value, p) => ok && bytes' == value && pos == p
              case Refused(p) => !ok && bytes' == bytes && pos == p
    {
      if buf[pos] != Tag(String) {
        return false, bytes;
      }
      pos := pos + 1;
      var _, len := ReadScalar(Int32, 0);
      if len < 0 {
        return false, bytes;
      }
      bytes' := buf[pos..pos + len];
      pos := pos + len;
      ok := true;
    }

    method ReadValue(kind: Kind, v: Value) returns (ok: bool, v': Value)
      requires (if kind == String then v.Text? else v.Scalar? && v.kind == kind) && !ValueAt(buf, pos, kind).Undefined?
      modifies this`pos
      ensures match ValueAt(buf, old(pos), kind)
              case Got(value, p) => ok && v' == value && pos == p
              case Refused(p) => !ok && v' == v && pos == p
    {
      if kind == String {
        var bytes;
        ok, bytes := ReadText(v.bytes);
        v' := Text(bytes);
      } else {
        var n;
        ok, n := ReadScalar(kind, v.n);
        v' := Scalar(kind, n);
      }
    }

    /** The element loop of the container reads. */
    method ReadElements(kind: Kind, len: int) returns (vs: seq<Value>)
      requires !ElementsAt(buf, pos, kind, len).Undefined?
      modifies this`pos
      ensures ElementsAt(buf, old(pos), kind, len) == Got(vs, pos)
    {
      hide ValueAt;
      vs := [];
      ghost var start := pos;
      var i := 0;
      while i < len
        invariant 0 <= i && (i <= len || i == 0)
        invariant ElementsAt(buf, start, kind, i) == Got(vs, pos)
      {
        ElementsDefined(buf, start, kind, i + 1, len);
        var unset := if kind == String then Text([]) else Scalar(kind, 0);
        var _, v := ReadValue(kind, unset);
        vs := vs + [v];
        i := i + 1;
      }
    }

    /** `read` of a vector or, with the elements taken as a set, of a set. */
    method ReadContainer(tag: Byte, kind: Kind) returns (ok: bool, vs: seq<Value>)
      requires !ContainerAt(buf, pos, tag, kind).Undefined?
      modifies this`pos
      ensures match ContainerAt(buf, old(pos), tag, kind)
              case Got(value, p) => ok && vs == value && pos == p
              case Refused(p) => !ok && vs == [] && pos == p
    {
      hide ScalarAt;
      hide ElementsAt;
      vs := [];
      if buf[pos] != tag {
        return false, vs;
      }
      pos := pos + 1;
      var _, len := ReadScalar(Int32, 0);
      vs := ReadElements(kind, len);
      pos := pos + len;
      ok := true;
    }
  }
}
