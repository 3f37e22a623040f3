/** AMQP field tables on the wire (section 4.2.5.5 of the AMQP 0-9-1 specification). */
module FieldTables {
  import opened Bytes

  /** Integers and floating-point bits carry their width in bytes: 1, 2, 4 or 8. */
  datatype FieldValue =
    | Bool(on: bool)
    | Signed(width: nat, number: int)
    | Unsigned(width: nat, magnitude: nat)
    | Floating(width: nat, bits: nat)
    | ShortString(short: bytes)
    | LongString(long: bytes)
    | Nested(table: FieldTable)
    | Void

  /** An ordered map from keys to values, in ascending key order. */
  datatype FieldTable = NoFields | Entry(key: bytes, value: FieldValue, rest: FieldTable)

  datatype WireError = NeedMore | FrameTooLarge(size: nat) | UnknownTag(tag: byte) | OutOfBounds

  datatype Outcome<+T> = Ok(value: T) | Err(error: WireError)

  type Lossy = bytes -> bytes

  const SHORT_MAX := 255

  // ---- Big-endian numbers

  function BE(v: nat, width: nat): (r: bytes)
    ensures |r| == width
    decreases width
  {
    if width == 0 then [] else BE(v / 256, width - 1) + [v % 256]
  }

  function UnBE(s: bytes): (v: nat)
    ensures v < Limit(|s|)
  {
    if s == [] then 0 else 256 * UnBE(s[..|s| - 1]) + s[|s| - 1]
  }

  lemma {:induction false} BERoundTrip(v: nat, width: nat)
    requires v < Limit(width)
    ensures UnBE(BE(v, width)) == v
    decreases width
  {
    if width == 0 {
    } else {
      BERoundTrip(v / 256, width - 1);
      assert BE(v, width)[..width - 1] == BE(v / 256, width - 1);
    }
  }

  /** The most significant byte comes first. */
  lemma {:induction false} BEDigit(v: nat, width: nat, k: nat)
    requires k < width
    ensures BE(v, width)[k] == v / Limit(width - 1 - k) % 256
    decreases width
  {
    if k < width - 1 {
      BEDigit(v / 256, width - 1, k);
      DivideTwice(v, Limit(width - 2 - k));
    }
  }

  /** Two's complement. */
  function ToUnsigned(v: int, width: nat): (u: nat)
    requires 0 <= v + Limit(width)
  {
    if v < 0 then v + Limit(width) else v
  }

  function FromUnsigned(u: nat, width: nat): (v: int) {
    if 2 * u >= Limit(width) then u - Limit(width) else u
  }

  // ---- Tags

  predicate WidthOk(width: nat) {
    width == 1 || width == 2 || width == 4 || width == 8
  }

  const BOOL_TAG := 't' as nat
  const SHORT_TAG := 's' as nat
  const LONG_TAG := 'S' as nat
  const TABLE_TAG := 'F' as nat
  const VOID_TAG := 'V' as nat

  function SignedTag(width: nat): (tag: byte)
    requires WidthOk(width)
  {
    if width == 1 then 'b' as nat else if width == 2 then 'U' as nat else if width == 4 then 'I' as nat else 'L' as nat
  }

  function UnsignedTag(width: nat): (tag: byte)
    requires WidthOk(width)
  {
    if width == 1 then 'B' as nat else if width == 2 then 'u' as nat else if width == 4 then 'i' as nat else 'l' as nat
  }

  function FloatTag(width: nat): (tag: byte)
    requires width == 4 || width == 8
  {
    if width == 4 then 'f' as nat else 'd' as nat
  }

  /** Width of a number behind its tag, or zero for other tags. */
  function NumberWidth(tag: byte): (width: nat) {
    if tag == 'b' as nat || tag == 'B' as nat then 1
    else if tag == 'U' as nat || tag == 'u' as nat then 2
    else if tag == 'I' as nat || tag == 'i' as nat || tag == 'f' as nat then 4
    else if tag == 'L' as nat || tag == 'l' as nat || tag == 'd' as nat then 8
    else 0
  }

  // ---- Encoding

  /** `write_longstr` */
  function LongBytes(s: bytes): (r: bytes) {
    BE(|s|, 4) + s
  }

  /** `write_shortstr` */
  function ShortBytes(s: bytes): (r: bytes) {
    [|s| % 256] + s
  }

  /** Values that the Rust types can hold, with strings and tables within the wire's lengths. */
  predicate ValueOk(v: FieldValue, lossy: Lossy)
    decreases v
  {
    match v
    case Bool(_) => true
    case Signed(width, n) => WidthOk(width) && 0 <= 2 * n + Limit(width) < 2 * Limit(width)
    case Unsigned(width, n) => WidthOk(width) && n < Limit(width)
    case Floating(width, n) => (width == 4 || width == 8) && n < Limit(width)
    case ShortString(s) => |s| <= SHORT_MAX
    case LongString(s) => |s| < U32_LIMIT
    case Nested(t) => TableOk(t, lossy)
    case Void => true
  }

  /** Keys are short UTF-8 strings, which the lossy reading leaves alone, in ascending order. */
  predicate FieldsOk(t: FieldTable, lossy: Lossy)
    decreases t, 0
  {
    t.Entry? ==> (
      && |t.key| <= SHORT_MAX && lossy(t.key) == t.key && ValueOk(t.value, lossy)
      && FieldsOk(t.rest, lossy) && KeysAbove(t.rest, t.key))
  }

  predicate TableOk(t: FieldTable, lossy: Lossy)
    decreases t, 1
  {
    FieldsOk(t, lossy) && EncodeFields(t).Ok? && |EncodeFields(t).value| < U32_LIMIT
  }

  /** `encode_field_value` */
  function EncodeValue(v: FieldValue): (r: Outcome<bytes>)
    decreases v
  {
    match v
    case Bool(on) => Ok([BOOL_TAG, if on then 1 else 0])
    case Signed(width, n) =>
      if WidthOk(width) && 0 <= n + Limit(width) then Ok([SignedTag(width)] + BE(ToUnsigned(n, width), width))
      else Err(OutOfBounds)
    case Unsigned(width, n) => if WidthOk(width) then Ok([UnsignedTag(width)] + BE(n, width)) else Err(OutOfBounds)
    case Floating(width, n) => if width == 4 || width == 8 then Ok([FloatTag(width)] + BE(n, width))
      else Err(OutOfBounds)
    case ShortString(s) => Ok([SHORT_TAG] + ShortBytes(s))
    case LongString(s) => Ok([LONG_TAG] + LongBytes(s))
    case Nested(t) =>
      var body := EncodeTable(t);
      if body.Err? then body else Ok([TABLE_TAG] + body.value)
    case Void => Ok([VOID_TAG])
  }

  /** The fields one after the other; a key that is too long fails the whole table. */
  function EncodeFields(t: FieldTable): (r: Outcome<bytes>)
    decreases t, 0
  {
    if t.NoFields? then Ok([]) else
    if |t.key| > SHORT_MAX then Err(FrameTooLarge(|t.key|)) else
    var value := EncodeValue(t.value);
    if value.Err? then value else
    var rest := EncodeFields(t.rest);
    if rest.Err? then rest else Ok(ShortBytes(t.key) + value.value + rest.value)
  }

  /** `FieldTable::encode` */
  function EncodeTable(t: FieldTable): (r: Outcome<bytes>)
    decreases t, 1
  {
    var body := EncodeFields(t);
    if body.Err? then body else Ok(LongBytes(body.value))
  }

  // ---- Keys

  /** Byte-wise lexicographic order. */
  predicate LexLess(a: bytes, b: bytes) {
    b != [] && (a == [] || a[0] < b[0] || (a[0] == b[0] && LexLess(a[1..], b[1..])))
  }

  lemma {:induction false} LexAsymmetric(a: bytes, b: bytes)
    requires LexLess(a, b)
    ensures !LexLess(b, a) && a != b
  {
    if a != [] && a[0] == b[0] { LexAsymmetric(a[1..], b[1..]); }
  }

  predicate KeysAbove(t: FieldTable, key: bytes) {
    t.Entry? ==> LexLess(key, t.key) && KeysAbove(t.rest, key)
  }

  predicate KeysBelow(t: FieldTable, key: bytes) {
    t.Entry? ==> LexLess(t.key, key) && KeysBelow(t.rest, key)
  }

  ghost predicate AllBelow(a: FieldTable, t: FieldTable) {
    t.Entry? ==> KeysBelow(a, t.key) && AllBelow(a, t.rest)
  }

  function Concat(a: FieldTable, b: FieldTable): (r: FieldTable) {
    if a.NoFields? then b else Entry(a.key, a.value, Concat(a.rest, b))
  }

  /** Insert or overwrite, in key order. */
  function InsertField(t: FieldTable, key: bytes, value: FieldValue): (r: FieldTable) {
    if t.NoFields? || LexLess(key, t.key) then Entry(key, value, t)
    else if key == t.key then Entry(key, value, t.rest)
    else Entry(t.key, t.value, InsertField(t.rest, key, value))
  }

  lemma {:induction false} InsertLast(a: FieldTable, key: bytes, value: FieldValue)
    requires KeysBelow(a, key)
    ensures InsertField(a, key, value) == Concat(a, Entry(key, value, NoFields))
    decreases a
  {
    if a.Entry? {
      LexAsymmetric(a.key, key);
      InsertLast(a.rest, key, value);
    }
  }

  lemma {:induction false} ConcatEntry(a: FieldTable, key: bytes, value: FieldValue, rest: FieldTable)
    ensures Concat(Concat(a, Entry(key, value, NoFields)), rest) == Concat(a, Entry(key, value, rest))
    decreases a
  {
    if a.Entry? { ConcatEntry(a.rest, key, value, rest); }
  }

  lemma {:induction false} BelowMore(a: FieldTable, key: bytes, value: FieldValue, bound: bytes)
    requires KeysBelow(a, bound) && LexLess(key, bound)
    ensures KeysBelow(Concat(a, Entry(key, value, NoFields)), bound)
    decreases a
  {
    if a.Entry? { BelowMore(a.rest, key, value, bound); }
  }

  lemma {:induction false} AllBelowMore(a: FieldTable, key: bytes, value: FieldValue, t: FieldTable)
    requires AllBelow(a, t) && KeysAbove(t, key)
    ensures AllBelow(Concat(a, Entry(key, value, NoFields)), t)
    decreases t
  {
    if t.Entry? {
      BelowMore(a, key, value, t.key);
      AllBelowMore(a, key, value, t.rest);
    }
  }

  // ---- Decoding

  /** `read_longstr`: the string and what follows it. */
  function ReadLong(buf: bytes): (r: Outcome<(bytes, bytes)>)
    ensures r.Ok? ==> |r.value.0| + |r.value.1| + 4 == |buf|
    ensures r.Err? ==> r.error == NeedMore
  {
    if |buf| < 4 then Err(NeedMore) else
    var len := UnBE(buf[..4]);
    if |buf| < 4 + len then Err(NeedMore) else Ok((buf[4..4 + len], buf[4 + len..]))
  }

  /** `read_shortstr` */
  function ReadShort(buf: bytes): (r: Outcome<(bytes, bytes)>)
    ensures r.Ok? ==> |r.value.0| + |r.value.1| + 1 == |buf|
    ensures r.Err? ==> r.error == NeedMore
  {
    if buf == [] then Err(NeedMore) else
    var len: nat := buf[0];
    if |buf| < 1 + len then Err(NeedMore) else Ok((buf[1..1 + len], buf[1 + len..]))
  }

  /** The number behind a number tag. */
  function NumberOf(tag: byte, raw: bytes): (v: FieldValue)
    requires NumberWidth(tag) == |raw| > 0
  {
    var width, n := |raw|, UnBE(raw);
    if tag == SignedTag(width) then Signed(width, FromUnsigned(n, width))
    else if tag == UnsignedTag(width) then Unsigned(width, n)
    else Floating(width, n)
  }

  /** `decode_field_value`: the value and what follows it. Reading a number past the end, where the
      original panics, is an error of its own. */
  function DecodeValue(buf: bytes, lossy: Lossy): (r: Outcome<(FieldValue, bytes)>)
    ensures r.Ok? ==> |r.value.1| < |buf|
    decreases |buf|, 0
  {
    if buf == [] then Err(NeedMore) else
    var tag, after := buf[0], buf[1..];
    var width := NumberWidth(tag);
    if width > 0 then
      if |after| < width then Err(OutOfBounds) else Ok((NumberOf(tag, after[..width]), after[width..]))
    else if tag == BOOL_TAG then
      if after == [] then Err(OutOfBounds) else Ok((Bool(after[0] != 0), after[1..]))
    else if tag == SHORT_TAG then
      var s := ReadShort(after);
      if s.Err? then Err(s.error) else Ok((ShortString(s.value.0), s.value.1))
    else if tag == LONG_TAG then
      var s := ReadLong(after);
      if s.Err? then Err(s.error) else Ok((LongString(s.value.0), s.value.1))
    else if tag == TABLE_TAG then
      var t := DecodeTable(after, lossy);
      if t.Err? then Err(t.error) else Ok((Nested(t.value.0), t.value.1))
    else if tag == VOID_TAG then Ok((Void, after))
    else Err(UnknownTag(tag))
  }

  /** The fields in the bytes, inserted into `acc` one by one. */
  function DecodeFields(slice: bytes, acc: FieldTable, lossy: Lossy): (r: Outcome<FieldTable>)
    decreases |slice|, 1
  {
    if slice == [] then Ok(acc) else
    var key := ReadShort(slice);
    if key.Err? then Err(key.error) else
    var value := DecodeValue(key.value.1, lossy);
    if value.Err? then Err(value.error) else
    DecodeFields(value.value.1, InsertField(acc, lossy(key.value.0), value.value.0), lossy)
  }

  /** `FieldTable::decode` */
  function DecodeTable(buf: bytes, lossy: Lossy): (r: Outcome<(FieldTable, bytes)>)
    ensures r.Ok? ==> |r.value.1| <= |buf|
    decreases |buf|, 2
  {
    var body := ReadLong(buf);
    if body.Err? then Err(body.error) else
    var fields := DecodeFields(body.value.0, NoFields, lossy);
    if fields.Err? then Err(fields.error) else Ok((fields.value, body.value.1))
  }

  /** The decoder as it runs: a loop over the table's bytes, recursive in its values. */
  method ReadTable(buf: bytes, lossy: Lossy) returns (r: Outcome<(FieldTable, bytes)>)
    ensures r == DecodeTable(buf, lossy)
  {
    hide DecodeValue, ReadLong, ReadShort;
    var body := ReadLong(buf);
    if body.Err? {
      return Err(body.error);
    }
    var slice, fields := body.value.0, NoFields;
    while slice != []
      invariant DecodeFields(body.value.0, NoFields, lossy) == DecodeFields(slice, fields, lossy)
      decreases |slice|
    {
      var key := ReadShort(slice);
      if key.Err? {
        return Err(key.error);
      }
      var value := DecodeValue(key.value.1, lossy);
      if value.Err? {
        return Err(value.error);
      }
      slice := value.value.1;
      fields := InsertField(fields, lossy(key.value.0), value.value.0);
    }
    r := Ok((fields, body.value.1));
  }

  // ---- Round trips

  lemma LongReads(s: bytes, rest: bytes)
    requires |s| < U32_LIMIT
    ensures ReadLong(LongBytes(s) + rest) == Ok((s, rest))
  {
    Limits();
    BERoundTrip(|s|, 4);
    var buf := LongBytes(s) + rest;
    assert buf[..4] == BE(|s|, 4) && buf[4..4 + |s|] == s && buf[4 + |s|..] == rest;
  }

  lemma ShortReads(s: bytes, rest: bytes)
    requires |s| <= SHORT_MAX
    ensures ReadShort(ShortBytes(s) + rest) == Ok((s, rest))
  {
    var buf := ShortBytes(s) + rest;
    assert buf[1..1 + |s|] == s && buf[1 + |s|..] == rest;
  }

  lemma NumberReads(tag: byte, raw: bytes, rest: bytes, lossy: Lossy)
    requires NumberWidth(tag) == |raw| > 0
    ensures DecodeValue([tag] + raw + rest, lossy) == Ok((NumberOf(tag, raw), rest))
  {
    var buf := [tag] + raw + rest;
    assert buf[1..] == raw + rest && (raw + rest)[..|raw|] == raw && (raw + rest)[|raw|..] == rest;
  }

  lemma WidthsOfTags(width: nat)
    requires WidthOk(width)
    ensures NumberWidth(SignedTag(width)) == width && NumberWidth(UnsignedTag(width)) == width
    ensures SignedTag(width) != UnsignedTag(width)
    ensures width >= 4 ==> NumberWidth(FloatTag(width)) == width && FloatTag(width) != SignedTag(width)
    ensures width >= 4 ==> FloatTag(width) != UnsignedTag(width)
  {
  }

  lemma NumberRoundTrip(v: FieldValue, rest: bytes, lossy: Lossy)
    requires ValueOk(v, lossy) && (v.Signed? || v.Unsigned? || v.Floating?)
    ensures EncodeValue(v).Ok? && DecodeValue(EncodeValue(v).value + rest, lossy) == Ok((v, rest))
  {
    hide BE, UnBE, Limit, DecodeValue;
    WidthsOfTags(v.width);
    var n := if v.Signed? then ToUnsigned(v.number, v.width) else if v.Unsigned? then v.magnitude else v.bits;
    BERoundTrip(n, v.width);
    NumberReads(EncodeValue(v).value[0], BE(n, v.width), rest, lossy);
  }

  lemma TagFirst(tag: byte, body: bytes, rest: bytes)
    ensures ([tag] + body + rest)[0] == tag && ([tag] + body + rest)[1..] == body + rest
  {
  }

  lemma PlainRoundTrip(v: FieldValue, rest: bytes, lossy: Lossy)
    requires v.Bool? || v.Void?
    ensures EncodeValue(v).Ok? && DecodeValue(EncodeValue(v).value + rest, lossy) == Ok((v, rest))
  {
    if v.Bool? {
      TagFirst(BOOL_TAG, [if v.on then 1 else 0], rest);
      assert EncodeValue(v).value == [BOOL_TAG] + [if v.on then 1 else 0];
    } else {
      TagFirst(VOID_TAG, [], rest);
      assert EncodeValue(v).value == [VOID_TAG] + [];
    }
  }

  /** A truth value is on unless its byte is zero. */
  lemma TruthReads(on: byte, rest: bytes, lossy: Lossy)
    ensures DecodeValue([BOOL_TAG, on] + rest, lossy) == Ok((Bool(on != 0), rest))
  {
    TagFirst(BOOL_TAG, [on], rest);
    assert [BOOL_TAG, on] == [BOOL_TAG] + [on];
  }

  lemma StringRoundTrip(v: FieldValue, rest: bytes, lossy: Lossy)
    requires ValueOk(v, lossy) && (v.ShortString? || v.LongString?)
    ensures EncodeValue(v).Ok? && DecodeValue(EncodeValue(v).value + rest, lossy) == Ok((v, rest))
  {
    hide ShortBytes, LongBytes, ReadShort, ReadLong;
    if v.ShortString? {
      TagFirst(SHORT_TAG, ShortBytes(v.short), rest);
      ShortReads(v.short, rest);
    } else {
      TagFirst(LONG_TAG, LongBytes(v.long), rest);
      LongReads(v.long, rest);
    }
  }

  lemma NestedReads(t: FieldTable, body: bytes, rest: bytes, lossy: Lossy)
    requires DecodeTable(body + rest, lossy) == Ok((t, rest))
    ensures DecodeValue([TABLE_TAG] + body + rest, lossy) == Ok((Nested(t), rest))
  {
    hide DecodeTable;
    TagFirst(TABLE_TAG, body, rest);
  }

  /** Decoding an encoded value followed by any bytes gives the value and those bytes. */
  lemma {:induction false} ValueRoundTrip(v: FieldValue, rest: bytes, lossy: Lossy)
    requires ValueOk(v, lossy)
    ensures EncodeValue(v).Ok? && DecodeValue(EncodeValue(v).value + rest, lossy) == Ok((v, rest))
    decreases v
  {
    hide DecodeValue, DecodeTable, EncodeTable, BE, Limit;
    match v
    case Bool(_) => PlainRoundTrip(v, rest, lossy);
    case Signed(_, _) => NumberRoundTrip(v, rest, lossy);
    case Unsigned(_, _) => NumberRoundTrip(v, rest, lossy);
    case Floating(_, _) => NumberRoundTrip(v, rest, lossy);
    case ShortString(_) => StringRoundTrip(v, rest, lossy);
    case LongString(_) => StringRoundTrip(v, rest, lossy);
    case Nested(t) =>
      TableRoundTrip(t, rest, lossy);
      NestedReads(t, EncodeTable(t).value, rest, lossy);
    case Void => PlainRoundTrip(v, rest, lossy);
  }

  /** Decoding the encoded fields of a table behind smaller keys appends them in order. */
  lemma {:induction false} FieldsRoundTrip(t: FieldTable, acc: FieldTable, lossy: Lossy)
    requires FieldsOk(t, lossy) && AllBelow(acc, t)
    ensures EncodeFields(t).Ok? && DecodeFields(EncodeFields(t).value, acc, lossy) == Ok(Concat(acc, t))
    decreases t, 0
  {
    hide ReadShort, DecodeValue, EncodeValue, ShortBytes;
    if t.NoFields? {
      ConcatNone(acc);
    } else {
      var next := Concat(acc, Entry(t.key, t.value, NoFields));
      AllBelowMore(acc, t.key, t.value, t.rest);
      FieldsRoundTrip(t.rest, next, lossy);
      var more := EncodeFields(t.rest).value;
      ValueRoundTrip(t.value, more, lossy);
      FirstField(t, more, acc, lossy);
      InsertLast(acc, t.key, t.value);
      ConcatEntry(acc, t.key, t.value, t.rest);
    }
  }

  lemma FirstField(t: FieldTable, more: bytes, acc: FieldTable, lossy: Lossy)
    requires t.Entry? && |t.key| <= SHORT_MAX && lossy(t.key) == t.key
    requires EncodeValue(t.value).Ok? && DecodeValue(EncodeValue(t.value).value + more, lossy) == Ok((t.value, more))
    ensures DecodeFields(ShortBytes(t.key) + EncodeValue(t.value).value + more, acc, lossy) ==
      DecodeFields(more, InsertField(acc, t.key, t.value), lossy)
  {
    hide ReadShort, DecodeValue, EncodeValue, InsertField;
    var value := EncodeValue(t.value).value;
    ShortReads(t.key, value + more);
    assert ShortBytes(t.key) + value + more == ShortBytes(t.key) + (value + more);
  }

  lemma {:induction false} ConcatNone(a: FieldTable)
    ensures Concat(a, NoFields) == a
    decreases a
  {
    if a.Entry? { ConcatNone(a.rest); }
  }

  /** Decoding an encoded table followed by any bytes gives the table and exactly those bytes. */
  lemma {:induction false} TableRoundTrip(t: FieldTable, rest: bytes, lossy: Lossy)
    requires TableOk(t, lossy)
    ensures EncodeTable(t).Ok? && DecodeTable(EncodeTable(t).value + rest, lossy) == Ok((t, rest))
    decreases t, 1
  {
    hide ReadLong, LongBytes, DecodeFields, EncodeFields;
    NothingBelow(t);
    FieldsRoundTrip(t, NoFields, lossy);
    LongReads(EncodeFields(t).value, rest);
  }

  lemma {:induction false} NothingBelow(t: FieldTable)
    ensures AllBelow(NoFields, t)
    decreases t
  {
    if t.Entry? { NothingBelow(t.rest); }
  }

  predicate ShortKeys(t: FieldTable)
    decreases t
  {
    t.Entry? ==> |t.key| <= SHORT_MAX && ShortKeys(t.rest) && (t.value.Nested? ==> ShortKeys(t.value.table))
  }

  /** Some key, at any depth, is too long and has the given length. */
  ghost predicate HasLongKey(t: FieldTable, size: nat)
    decreases t
  {
    && t.Entry?
    && (|t.key| == size > SHORT_MAX || HasLongKey(t.rest, size)
      || (t.value.Nested? && HasLongKey(t.value.table, size)))
  }

  predicate Representable(t: FieldTable)
    decreases t
  {
    t.Entry? ==> Representable(t.rest) && match t.value
      case Signed(width, n) => WidthOk(width) && 0 <= n + Limit(width)
      case Unsigned(width, _) => WidthOk(width)
      case Floating(width, _) => width == 4 || width == 8
      case Nested(inner) => Representable(inner)
      case _ => true
  }

  /** Encoding fails exactly when some key, at any depth, is too long. */
  lemma {:induction false} EncodesIffKeysShort(t: FieldTable)
    requires Representable(t)
    ensures EncodeFields(t).Ok? <==> ShortKeys(t)
    ensures EncodeFields(t).Err? ==>
      EncodeFields(t).error.FrameTooLarge? && HasLongKey(t, EncodeFields(t).error.size)
    decreases t
  {
    hide BE, LongBytes, ShortBytes, Limit;
    if t.Entry? {
      EncodesIffKeysShort(t.rest);
      if t.value.Nested? {
        EncodesIffKeysShort(t.value.table);
        NestedEncodes(t.value.table);
      }
    }
  }

  lemma NestedEncodes(t: FieldTable)
    ensures EncodeValue(Nested(t)).Ok? <==> EncodeFields(t).Ok?
    ensures EncodeFields(t).Err? ==> EncodeValue(Nested(t)) == EncodeFields(t)
  {
  }

  // ---- Which tables survive the wire

  /** Values that the Rust types can hold, with long strings and table bodies below 2^32 bytes. A short
      string built from text may be longer than its length byte can say. */
  predicate ValueHolds(v: FieldValue, lossy: Lossy)
    decreases v
  {
    match v
    case ShortString(_) => true
    case Nested(t) => TableHolds(t, lossy)
    case _ => ValueOk(v, lossy)
  }

  predicate FieldsHold(t: FieldTable, lossy: Lossy)
    decreases t, 0
  {
    t.Entry? ==> (
      && lossy(t.key) == t.key && ValueHolds(t.value, lossy) && FieldsHold(t.rest, lossy) && KeysAbove(t.rest, t.key))
  }

  predicate TableHolds(t: FieldTable, lossy: Lossy)
    decreases t, 1
  {
    FieldsHold(t, lossy) && (EncodeFields(t).Ok? ==> |EncodeFields(t).value| < U32_LIMIT)
  }

  predicate ShortValue(v: FieldValue)
    decreases v
  {
    match v
    case ShortString(s) => |s| <= SHORT_MAX
    case Nested(t) => ShortValues(t)
    case _ => true
  }

  /** Every short string, at any depth, has at most 255 bytes. */
  predicate ShortValues(t: FieldTable)
    decreases t
  {
    t.Entry? ==> ShortValue(t.value) && ShortValues(t.rest)
  }

  ghost predicate Survives(t: FieldTable, rest: bytes, lossy: Lossy) {
    EncodeTable(t).Ok? && DecodeTable(EncodeTable(t).value + rest, lossy) == Ok((t, rest))
  }

  /** A table survives the wire exactly when no key and no short string, at any depth, is longer than
      255 bytes. */
  lemma TableSurvivesIff(t: FieldTable, rest: bytes, lossy: Lossy)
    requires TableHolds(t, lossy)
    ensures Survives(t, rest, lossy) <==> ShortKeys(t) && ShortValues(t)
  {
    hide DecodeTable, DecodeFields;
    HoldsRepresentable(t, lossy);
    EncodesIffKeysShort(t);
    if ShortKeys(t) && ShortValues(t) {
      HoldsAndShort(t, lossy);
      TableRoundTrip(t, rest, lossy);
    }
    if Survives(t, rest, lossy) {
      DecodedTableShort(EncodeTable(t).value + rest, lossy);
    }
  }

  lemma {:induction false} HoldsRepresentable(t: FieldTable, lossy: Lossy)
    requires FieldsHold(t, lossy)
    ensures Representable(t)
    decreases t
  {
    hide Limit, EncodeFields;
    if t.NoFields? {
    } else {
      HoldsRepresentable(t.rest, lossy);
      if t.value.Nested? {
        assert TableHolds(t.value.table, lossy) by { assert ValueHolds(t.value, lossy); }
        HoldsRepresentable(t.value.table, lossy);
      }
    }
  }

  lemma {:induction false} HoldsAndShort(t: FieldTable, lossy: Lossy)
    requires FieldsHold(t, lossy) && ShortKeys(t) && ShortValues(t)
    ensures FieldsOk(t, lossy) && EncodeFields(t).Ok?
    decreases t
  {
    hide Limit, EncodeValue;
    HoldsRepresentable(t, lossy);
    EncodesIffKeysShort(t);
    if t.NoFields? {
    } else {
      HoldsAndShort(t.rest, lossy);
      if t.value.Nested? {
        assert TableHolds(t.value.table, lossy) by { assert ValueHolds(t.value, lossy); }
        assert ShortValues(t.value.table) by { assert ShortValue(t.value); }
        HoldsAndShort(t.value.table, lossy);
        assert TableOk(t.value.table, lossy);
      }
      assert ValueOk(t.value, lossy) by { assert ValueHolds(t.value, lossy) && ShortValue(t.value); }
    }
  }

  /** What the decoder yields has short strings of at most 255 bytes. */
  lemma {:induction false} DecodedValueShort(buf: bytes, lossy: Lossy)
    ensures DecodeValue(buf, lossy).Ok? ==> ShortValue(DecodeValue(buf, lossy).value.0)
    decreases |buf|, 0
  {
    hide DecodeTable, UnBE;
    if buf == [] {
    } else {
      DecodedTableShort(buf[1..], lossy);
    }
  }

  lemma {:induction false} DecodedFieldsShort(slice: bytes, acc: FieldTable, lossy: Lossy)
    requires ShortValues(acc)
    ensures DecodeFields(slice, acc, lossy).Ok? ==> ShortValues(DecodeFields(slice, acc, lossy).value)
    decreases |slice|, 1
  {
    hide DecodeValue, InsertField;
    if slice == [] || ReadShort(slice).Err? {
    } else {
      var key := ReadShort(slice).value;
      var value := DecodeValue(key.1, lossy);
      if value.Ok? {
        DecodedValueShort(key.1, lossy);
        InsertShort(acc, lossy(key.0), value.value.0);
        DecodedFieldsShort(value.value.1, InsertField(acc, lossy(key.0), value.value.0), lossy);
      }
    }
  }

  lemma {:induction false} DecodedTableShort(buf: bytes, lossy: Lossy)
    ensures DecodeTable(buf, lossy).Ok? ==> ShortValues(DecodeTable(buf, lossy).value.0)
    decreases |buf|, 2
  {
    hide DecodeFields;
    if ReadLong(buf).Ok? { DecodedFieldsShort(ReadLong(buf).value.0, NoFields, lossy); }
  }

  lemma {:induction false} InsertShort(t: FieldTable, key: bytes, value: FieldValue)
    requires ShortValues(t) && ShortValue(value)
    ensures ShortValues(InsertField(t, key, value))
    decreases t
  {
    hide LexLess;
    if t.NoFields? {
    } else {
      InsertShort(t.rest, key, value);
    }
  }

  /** A longer short string loses its head to the next value: only its length modulo 256 is written. */
  lemma LongShortString(s: bytes, rest: bytes, lossy: Lossy)
    ensures var n := |s| % 256;
      DecodeValue(EncodeValue(ShortString(s)).value + rest, lossy) == Ok((ShortString(s[..n]), s[n..] + rest))
  {
    hide ShortBytes, ReadShort;
    TagFirst(SHORT_TAG, ShortBytes(s), rest);
    ShortReadsModulo(s, rest);
  }

  lemma ShortReadsModulo(s: bytes, rest: bytes)
    ensures var n := |s| % 256; ReadShort(ShortBytes(s) + rest) == Ok((s[..n], s[n..] + rest))
  {
    var n, buf := |s| % 256, ShortBytes(s) + rest;
    assert buf[0] == n && buf[1..1 + n] == s[..n] && buf[1 + n..] == s[n..] + rest;
  }

  // ---- Which bytes fail to decode, and how

  /** Width of the value behind a tag that is read without a check, or zero for other tags. */
  function UncheckedWidth(tag: byte): (width: nat) {
    if tag == BOOL_TAG then 1 else NumberWidth(tag)
  }

  predicate KnownTag(tag: byte) {
    UncheckedWidth(tag) > 0 || tag == SHORT_TAG || tag == LONG_TAG || tag == TABLE_TAG || tag == VOID_TAG
  }

  /** The bytes break off inside a short string, or inside a long one. */
  predicate ShortCut(buf: bytes) {
    buf == [] || |buf| - 1 < buf[0]
  }

  predicate LongCut(buf: bytes) {
    |buf| < 4 || |buf| - 4 < UnBE(buf[..4])
  }

  /** What is wrong with the bytes of a value: they break off, inside a number or truth value past the end
      of the bytes, or their tag is unknown, or the table nested in them has the fault. */
  ghost predicate ValueFault(buf: bytes, lossy: Lossy, e: WireError)
    decreases |buf|, 0
  {
    if buf == [] then e == NeedMore else
      || (UncheckedWidth(buf[0]) > |buf| - 1 && e == OutOfBounds)
      || (!KnownTag(buf[0]) && e == UnknownTag(buf[0]))
      || (buf[0] == SHORT_TAG && ShortCut(buf[1..]) && e == NeedMore)
      || (buf[0] == LONG_TAG && LongCut(buf[1..]) && e == NeedMore)
      || (buf[0] == TABLE_TAG && TableFault(buf[1..], lossy, e))
  }

  ghost predicate TableFault(buf: bytes, lossy: Lossy, e: WireError)
    decreases |buf|, 2
  {
    if LongCut(buf) then e == NeedMore else FieldsFault(buf[4..4 + UnBE(buf[..4])], lossy, e)
  }

  /** Behind some whole fields, the bytes break off inside a key, or a value has the fault. */
  ghost predicate FieldsFault(slice: bytes, lossy: Lossy, e: WireError)
    decreases |slice|, 1
  {
    || (exists n: nat, rest :: Behind(slice, n, rest, lossy) && |rest| < |slice| && ValueFault(rest, lossy, e))
    || (exists n: nat :: KeyCut(slice, n, lossy) && e == NeedMore)
  }

  /** The first `n` bytes are whole fields, then comes a key, then `rest`. */
  ghost predicate Behind(slice: bytes, n: nat, rest: bytes, lossy: Lossy) {
    && n <= |slice| && DecodeFields(slice[..n], NoFields, lossy).Ok?
    && ReadShort(slice[n..]).Ok? && ReadShort(slice[n..]).value.1 == rest
  }

  /** The first `n` bytes are whole fields, then the bytes break off inside a key. */
  ghost predicate KeyCut(slice: bytes, n: nat, lossy: Lossy) {
    n < |slice| && DecodeFields(slice[..n], NoFields, lossy).Ok? && ShortCut(slice[n..])
  }

  /** Decoding fails exactly on the tables with a fault, and names it. A number or truth value past the end,
      where the original panics, is the fault `OutOfBounds`. */
  lemma {:induction false} TableFails(buf: bytes, lossy: Lossy, e: WireError)
    ensures DecodeTable(buf, lossy) == Err(e) <==> TableFault(buf, lossy, e)
    decreases |buf|, 3
  {
    hide DecodeFields, FieldsFault, UnBE;
    if !LongCut(buf) { FieldsFail(ReadLong(buf).value.0, NoFields, lossy, e); }
  }

  lemma {:induction false} ValueFails(buf: bytes, lossy: Lossy, e: WireError)
    ensures DecodeValue(buf, lossy) == Err(e) <==> ValueFault(buf, lossy, e)
    decreases |buf|, 0
  {
    hide DecodeTable, TableFault, UnBE;
    if buf == [] {
    } else {
      TableFails(buf[1..], lossy, e);
    }
  }

  lemma {:induction false} FieldsFail(slice: bytes, acc: FieldTable, lossy: Lossy, e: WireError)
    ensures DecodeFields(slice, acc, lossy) == Err(e) <==> FieldsFault(slice, lossy, e)
    decreases |slice|, 2
  {
    hide DecodeFields, ValueFault, Behind, KeyCut;
    if DecodeFields(slice, acc, lossy) == Err(e) { FaultFound(slice, acc, lossy, e); }
    if FieldsFault(slice, lossy, e) {
      if n: nat, rest :| Behind(slice, n, rest, lossy) && |rest| < |slice| && ValueFault(rest, lossy, e) {
        FaultMeets(slice, acc, n, rest, lossy, e);
      } else {
        var n: nat :| KeyCut(slice, n, lossy) && e == NeedMore;
        CutMeets(slice, acc, n, lossy);
      }
    }
  }

  lemma {:induction false} FaultFound(slice: bytes, acc: FieldTable, lossy: Lossy, e: WireError)
    requires DecodeFields(slice, acc, lossy) == Err(e)
    ensures FieldsFault(slice, lossy, e)
    decreases |slice|, 1
  {
    hide DecodeValue, ValueFault, InsertField, ReadShort, FieldsFault;
    assert slice[..0] == [] && slice[0..] == slice;
    if ReadShort(slice).Err? {
      CutHere(slice);
      assert KeyCut(slice, 0, lossy);
      FaultAtKey(slice, 0, lossy);
    } else {
      var key := ReadShort(slice).value;
      ValueFails(key.1, lossy, e);
      if DecodeValue(key.1, lossy).Err? {
        assert Behind(slice, 0, key.1, lossy);
        FaultAtValue(slice, 0, key.1, lossy, e);
      } else {
        var value := DecodeValue(key.1, lossy).value;
        FaultFound(value.1, InsertField(acc, lossy(key.0), value.0), lossy, e);
        FaultLater(slice, lossy, e);
      }
    }
  }

  lemma CutHere(buf: bytes)
    ensures ReadShort(buf).Err? <==> ShortCut(buf)
  {
  }

  lemma FaultAtKey(slice: bytes, n: nat, lossy: Lossy)
    requires KeyCut(slice, n, lossy)
    ensures FieldsFault(slice, lossy, NeedMore)
  {
    hide KeyCut, Behind, ValueFault;
  }

  lemma FaultAtValue(slice: bytes, n: nat, rest: bytes, lossy: Lossy, e: WireError)
    requires Behind(slice, n, rest, lossy) && |rest| < |slice| && ValueFault(rest, lossy, e)
    ensures FieldsFault(slice, lossy, e)
  {
    hide KeyCut, Behind, ValueFault;
  }

  /** A fault behind the first field is a fault of the whole. */
  lemma FaultLater(slice: bytes, lossy: Lossy, e: WireError)
    requires ReadShort(slice).Ok? && DecodeValue(ReadShort(slice).value.1, lossy).Ok?
    requires FieldsFault(DecodeValue(ReadShort(slice).value.1, lossy).value.1, lossy, e)
    ensures FieldsFault(slice, lossy, e)
  {
    hide DecodeValue, ValueFault, InsertField, ReadShort, DecodeFields;
    var key := ReadShort(slice).value;
    var left := DecodeValue(key.1, lossy).value.1;
    if m: nat, rest :| Behind(left, m, rest, lossy) && |rest| < |left| && ValueFault(rest, lossy, e) {
      FieldInFront(slice, m, lossy);
      FaultAtValue(slice, |slice| - |left| + m, rest, lossy, e);
    } else {
      var m: nat :| KeyCut(left, m, lossy) && e == NeedMore;
      FieldInFront(slice, m, lossy);
      FaultAtKey(slice, |slice| - |left| + m, lossy);
    }
  }

  /** Whole fields behind the first field are whole fields together with it. */
  lemma FieldInFront(slice: bytes, m: nat, lossy: Lossy)
    requires ReadShort(slice).Ok? && DecodeValue(ReadShort(slice).value.1, lossy).Ok?
    requires var left := DecodeValue(ReadShort(slice).value.1, lossy).value.1;
      m <= |left| && DecodeFields(left[..m], NoFields, lossy).Ok?
    ensures var left := DecodeValue(ReadShort(slice).value.1, lossy).value.1;
      && |left| <= |slice| && slice[|slice| - |left| + m..] == left[m..]
      && DecodeFields(slice[..|slice| - |left| + m], NoFields, lossy).Ok?
  {
    hide DecodeValue, InsertField, ReadShort;
    var key := ReadShort(slice).value;
    var value := DecodeValue(key.1, lossy).value;
    FieldIsLocal(slice, value.1[..m], lossy);
    var n := |slice| - |value.1| + m;
    assert slice[..n] == slice[..|slice| - |value.1|] + value.1[..m] && slice[n..] == value.1[m..];
    AccIrrelevant(value.1[..m], NoFields, InsertField(NoFields, lossy(key.0), value.0), lossy);
  }

  lemma {:induction false} FaultMeets(slice: bytes, acc: FieldTable, n: nat, rest: bytes, lossy: Lossy, e: WireError)
    requires Behind(slice, n, rest, lossy) && ValueFault(rest, lossy, e)
    ensures DecodeFields(slice, acc, lossy) == Err(e)
    decreases |slice|, 1
  {
    hide DecodeValue, ValueFault, InsertField, ReadShort;
    if n == 0 {
      assert slice[0..] == slice;
      ValueFails(rest, lossy, e);
    } else {
      var more, left, next := PassField(slice, acc, n, lossy);
      FaultMeets(left + more, next, |left|, rest, lossy, e);
    }
  }

  lemma {:induction false} CutMeets(slice: bytes, acc: FieldTable, n: nat, lossy: Lossy)
    requires KeyCut(slice, n, lossy)
    ensures DecodeFields(slice, acc, lossy) == Err(NeedMore)
    decreases |slice|
  {
    hide DecodeValue, InsertField, ReadShort, ShortCut;
    if n == 0 {
      assert slice[0..] == slice;
      CutHere(slice);
    } else {
      var more, left, next := PassField(slice, acc, n, lossy);
      CutMeets(left + more, next, |left|, lossy);
    }
  }

  /** Decoding passes the first of some whole fields and goes on with the others. */
  lemma PassField(slice: bytes, acc: FieldTable, n: nat, lossy: Lossy)
    returns (more: bytes, left: bytes, next: FieldTable)
    requires 0 < n <= |slice| && DecodeFields(slice[..n], NoFields, lossy).Ok?
    ensures more == slice[n..] && |left| < n
    ensures (left + more)[..|left|] == left && (left + more)[|left|..] == more
    ensures DecodeFields(left, NoFields, lossy).Ok?
    ensures DecodeFields(slice, acc, lossy) == DecodeFields(left + more, next, lossy)
  {
    hide DecodeValue, InsertField, ReadShort;
    var whole := slice[..n];
    var key := ReadShort(whole).value;
    var value := DecodeValue(key.1, lossy).value;
    more, left, next := slice[n..], value.1, InsertField(acc, lossy(key.0), value.0);
    FieldIsLocal(whole, left + more, lossy);
    assert slice == whole[..|whole| - |left|] + (left + more);
    AccIrrelevant(left, NoFields, InsertField(NoFields, lossy(key.0), value.0), lossy);
  }

  /** The first field of some bytes is read the same whatever follows it. */
  lemma FieldIsLocal(slice: bytes, more: bytes, lossy: Lossy)
    requires ReadShort(slice).Ok? && DecodeValue(ReadShort(slice).value.1, lossy).Ok?
    ensures var key := ReadShort(slice).value; var value := DecodeValue(key.1, lossy).value;
      var field := slice[..|slice| - |value.1|] + more;
      && |value.1| < |slice| && slice[|slice| - |value.1|..] == value.1
      && ReadShort(field).Ok? && ReadShort(field).value.0 == key.0
      && DecodeValue(ReadShort(field).value.1, lossy) == Ok((value.0, more))
  {
    hide DecodeValue;
    var key := ReadShort(slice).value;
    var value := DecodeValue(key.1, lossy).value;
    ValueIsLocal(key.1, more, lossy);
    ShortIsLocal(slice, key.1[..|key.1| - |value.1|] + more);
    assert slice[..|slice| - |key.1|] + (key.1[..|key.1| - |value.1|] + more) == slice[..|slice| - |value.1|] + more;
  }

  lemma ShortIsLocal(buf: bytes, more: bytes)
    requires ReadShort(buf).Ok?
    ensures var r := ReadShort(buf).value;
      buf[|buf| - |r.1|..] == r.1 && ReadShort(buf[..|buf| - |r.1|] + more) == Ok((r.0, more))
  {
    var r := ReadShort(buf).value;
    var b := buf[..|buf| - |r.1|] + more;
    assert b[1..1 + |r.0|] == r.0 && b[1 + |r.0|..] == more;
  }

  lemma LongIsLocal(buf: bytes, more: bytes)
    requires ReadLong(buf).Ok?
    ensures var r := ReadLong(buf).value;
      buf[|buf| - |r.1|..] == r.1 && ReadLong(buf[..|buf| - |r.1|] + more) == Ok((r.0, more))
  {
    hide UnBE;
    var r := ReadLong(buf).value;
    var b := buf[..|buf| - |r.1|] + more;
    assert b[..4] == buf[..4] && b[4..4 + |r.0|] == r.0 && b[4 + |r.0|..] == more;
  }

  lemma ValueIsLocal(buf: bytes, more: bytes, lossy: Lossy)
    requires DecodeValue(buf, lossy).Ok?
    ensures var r := DecodeValue(buf, lossy).value;
      buf[|buf| - |r.1|..] == r.1 && DecodeValue(buf[..|buf| - |r.1|] + more, lossy) == Ok((r.0, more))
  {
    hide ReadShort, ReadLong, UnBE, DecodeFields;
    var tag, after, r := buf[0], buf[1..], DecodeValue(buf, lossy).value;
    var b := buf[..|buf| - |r.1|] + more;
    assert b[0] == tag && b[1..] == after[..|after| - |r.1|] + more;
    if UncheckedWidth(tag) > 0 {
      var w := UncheckedWidth(tag);
      assert b[1..][..w] == after[..w] && b[1..][w..] == more;
    } else if tag == SHORT_TAG {
      ShortIsLocal(after, more);
    } else if tag == LONG_TAG || tag == TABLE_TAG {
      LongIsLocal(after, more);
    }
  }

  /** What was decoded before does not change what can be decoded. */
  lemma {:induction false} AccIrrelevant(slice: bytes, a: FieldTable, b: FieldTable, lossy: Lossy)
    ensures DecodeFields(slice, a, lossy).Ok? <==> DecodeFields(slice, b, lossy).Ok?
    decreases |slice|
  {
    hide DecodeValue, InsertField, ReadShort;
    if slice == [] || ReadShort(slice).Err? {
    } else {
      var key := ReadShort(slice).value;
      var value := DecodeValue(key.1, lossy);
      if value.Ok? {
        var k, v := lossy(key.0), value.value.0;
        AccIrrelevant(value.value.1, InsertField(a, k, v), InsertField(b, k, v), lossy);
      }
    }
  }

  // ---- A table is a map

  ghost predicate Ascends(t: FieldTable) {
    t.Entry? ==> KeysAbove(t.rest, t.key) && Ascends(t.rest)
  }

  datatype Stored = Absent | Present(value: FieldValue)

  /** The value stored under a key, wherever in the table it is. */
  function Lookup(t: FieldTable, key: bytes): (v: Stored) {
    if t.NoFields? then Absent else if t.key == key then Present(t.value) else Lookup(t.rest, key)
  }

  lemma {:induction false} LexTotal(a: bytes, b: bytes)
    ensures LexLess(a, b) || a == b || LexLess(b, a)
  {
    if a != [] && b != [] && a[0] == b[0] {
      LexTotal(a[1..], b[1..]);
      assert a == [a[0]] + a[1..] && b == [b[0]] + b[1..];
    }
  }

  lemma {:induction false} LexTransitive(a: bytes, b: bytes, d: bytes)
    requires LexLess(a, b) && LexLess(b, d)
    ensures LexLess(a, d)
  {
    if a != [] && a[0] == b[0] && b[0] == d[0] { LexTransitive(a[1..], b[1..], d[1..]); }
  }

  lemma {:induction false} AboveToo(t: FieldTable, low: bytes, high: bytes)
    requires LexLess(low, high) && KeysAbove(t, high)
    ensures KeysAbove(t, low)
    decreases t
  {
    if t.Entry? {
      LexTransitive(low, high, t.key);
      AboveToo(t.rest, low, high);
    }
  }

  lemma {:induction false} AboveHasNot(t: FieldTable, key: bytes)
    requires KeysAbove(t, key)
    ensures Lookup(t, key) == Absent
    decreases t
  {
    if t.Entry? {
      LexAsymmetric(key, t.key);
      AboveHasNot(t.rest, key);
    }
  }

  lemma {:induction false} InsertAbove(t: FieldTable, low: bytes, key: bytes, value: FieldValue)
    requires KeysAbove(t, low) && LexLess(low, key)
    ensures KeysAbove(InsertField(t, key, value), low)
    decreases t
  {
    if t.Entry? { InsertAbove(t.rest, low, key, value); }
  }

  /** Inserting changes the value of its key and of no other, and keeps the keys ascending. */
  lemma {:induction false} InsertIsUpdate(t: FieldTable, key: bytes, value: FieldValue, x: bytes)
    requires Ascends(t)
    ensures Ascends(InsertField(t, key, value))
    ensures Lookup(InsertField(t, key, value), x) == if x == key then Present(value) else Lookup(t, x)
    decreases t
  {
    if t.NoFields? {
    } else if LexLess(key, t.key) {
      AboveToo(t.rest, key, t.key);
    } else {
      LexTotal(key, t.key);
      if key != t.key {
        InsertIsUpdate(t.rest, key, value, x);
        InsertAbove(t.rest, t.key, key, value);
      }
    }
  }

  /** Ascending tables that store the same under every key are the same table. */
  lemma {:induction false} OneTable(a: FieldTable, b: FieldTable)
    requires Ascends(a) && Ascends(b) && forall x :: Lookup(a, x) == Lookup(b, x)
    ensures a == b
    decreases a
  {
    var first := if b.Entry? then b.key else [];
    assert Lookup(a, first) == Lookup(b, first);
    if a.NoFields? {
    } else {
      assert Lookup(a, a.key) == Lookup(b, a.key);
      assert Lookup(a, b.key) == Lookup(b, b.key);
      FirstIsLeast(a, b.key);
      FirstIsLeast(b, a.key);
      if a.key != b.key { LexAsymmetric(a.key, b.key); }
      forall x ensures Lookup(a.rest, x) == Lookup(b.rest, x) {
        assert Lookup(a, x) == Lookup(b, x);
        AboveHasNot(a.rest, a.key);
        AboveHasNot(b.rest, b.key);
      }
      OneTable(a.rest, b.rest);
    }
  }

  lemma {:induction false} FirstIsLeast(t: FieldTable, x: bytes)
    requires t.Entry? && Ascends(t) && Lookup(t, x).Present?
    ensures x == t.key || LexLess(t.key, x)
  {
    if x != t.key { StoredAbove(t.rest, t.key, x); }
  }

  lemma {:induction false} StoredAbove(t: FieldTable, low: bytes, x: bytes)
    requires KeysAbove(t, low) && Lookup(t, x).Present?
    ensures LexLess(low, x)
    decreases t
  {
    if t.key != x { StoredAbove(t.rest, low, x); }
  }

  // ---- Fields in any order

  datatype Pair = Pair(key: bytes, value: FieldValue)

  ghost predicate PairsOk(ps: seq<Pair>, lossy: Lossy) {
    forall k :: 0 <= k < |ps| ==> |ps[k].key| <= SHORT_MAX && ValueOk(ps[k].value, lossy)
  }

  /** The fields as a peer may send them: in any order, a key possibly more than once. */
  function PairBytes(ps: seq<Pair>): (r: bytes) {
    if ps == [] then [] else
      var value := EncodeValue(ps[0].value);
      (if value.Ok? then ShortBytes(ps[0].key) + value.value else []) + PairBytes(ps[1..])
  }

  /** The last value sent under a key, or else the one there was. */
  function LastSent(ps: seq<Pair>, lossy: Lossy, x: bytes, before: Stored): (v: Stored) {
    if ps == [] then before
    else if lossy(ps[|ps| - 1].key) == x then Present(ps[|ps| - 1].value)
    else LastSent(ps[..|ps| - 1], lossy, x, before)
  }

  lemma {:induction false} LastSentFirst(ps: seq<Pair>, lossy: Lossy, x: bytes, before: Stored)
    requires ps != []
    ensures LastSent(ps, lossy, x, before) ==
      LastSent(ps[1..], lossy, x, if lossy(ps[0].key) == x then Present(ps[0].value) else before)
  {
    var n := |ps| - 1;
    if n > 0 && lossy(ps[n].key) != x {
      LastSentFirst(ps[..n], lossy, x, before);
      assert ps[..n][1..] == ps[1..][..n - 1];
    }
  }

  lemma {:induction false} PairsDecode(ps: seq<Pair>, acc: FieldTable, lossy: Lossy)
    requires PairsOk(ps, lossy) && Ascends(acc)
    ensures var r := DecodeFields(PairBytes(ps), acc, lossy);
      r.Ok? && Ascends(r.value) && forall x :: Lookup(r.value, x) == LastSent(ps, lossy, x, Lookup(acc, x))
    decreases |ps|
  {
    hide EncodeValue, ValueOk, ShortBytes, DecodeFields, InsertField, LastSent;
    if ps == [] {
      NoPairs(acc, lossy);
    } else {
      var key, value, more := ps[0].key, ps[0].value, PairBytes(ps[1..]);
      ValueRoundTrip(value, more, lossy);
      SentField(key, value, more, acc, lossy);
      var next := InsertField(acc, lossy(key), value);
      InsertIsUpdate(acc, lossy(key), value, key);
      PairsDecode(ps[1..], next, lossy);
      forall x ensures LastSent(ps[1..], lossy, x, Lookup(next, x)) == LastSent(ps, lossy, x, Lookup(acc, x)) {
        InsertIsUpdate(acc, lossy(key), value, x);
        LastSentFirst(ps, lossy, x, Lookup(acc, x));
      }
    }
  }

  lemma NoPairs(acc: FieldTable, lossy: Lossy)
    ensures DecodeFields(PairBytes([]), acc, lossy) == Ok(acc)
    ensures forall x :: LastSent([], lossy, x, Lookup(acc, x)) == Lookup(acc, x)
  {
  }

  lemma SentField(key: bytes, value: FieldValue, more: bytes, acc: FieldTable, lossy: Lossy)
    requires |key| <= SHORT_MAX
    requires EncodeValue(value).Ok? && DecodeValue(EncodeValue(value).value + more, lossy) == Ok((value, more))
    ensures DecodeFields(ShortBytes(key) + EncodeValue(value).value + more, acc, lossy) ==
      DecodeFields(more, InsertField(acc, lossy(key), value), lossy)
  {
    hide ReadShort, DecodeValue, EncodeValue, InsertField;
    ShortReads(key, EncodeValue(value).value + more);
    assert ShortBytes(key) + EncodeValue(value).value + more == ShortBytes(key) + (EncodeValue(value).value + more);
  }

  /** However a peer orders and repeats its fields, the decoder answers with the ascending table in which
      each key has the value that was sent last under it, and with exactly the bytes behind the table. */
  lemma SentTable(ps: seq<Pair>, rest: bytes, lossy: Lossy)
    requires PairsOk(ps, lossy) && |PairBytes(ps)| < U32_LIMIT
    ensures var r := DecodeTable(LongBytes(PairBytes(ps)) + rest, lossy);
      && r.Ok? && r.value.1 == rest && Ascends(r.value.0)
      && forall x :: Lookup(r.value.0, x) == LastSent(ps, lossy, x, Absent)
  {
    hide DecodeFields, PairBytes, LongBytes, ReadLong, LastSent;
    LongReads(PairBytes(ps), rest);
    PairsDecode(ps, NoFields, lossy);
  }
}
