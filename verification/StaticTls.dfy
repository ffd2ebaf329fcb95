/** The static TLS record: its wire form, written and read with a cursor, and its
    identifying string. */
module StaticTls {
  import opened Collections
  import opened Bytes
  import opened Numerals

  // static_tls_info_t; an absent string is a null pointer.
  datatype Info<T> = Info(executable: Option<seq<T>>, ldLibraryPath: Option<seq<T>>, ldPreload: Option<seq<T>>,
                          cwd: Option<seq<T>>, pathComponent: Option<seq<T>>)

  type Text = Option<seq<Byte>>

  // -------------------------------------------------------------------- wire form

  // The length stored for a string: with its terminator, 0 for a null pointer.
  function Stored(t: Text): nat
  {
    if t.None? then 0 else |t.value| + 1
  }

  function Written(t: Text): seq<Byte>
  {
    if t.None? then [] else t.value + [0]
  }

  function Total(i: Info<Byte>): nat
  {
    Stored(i.executable) + Stored(i.ldLibraryPath) + Stored(i.ldPreload) + Stored(i.cwd) + Stored(i.pathComponent)
  }

  // The lengths fit the C int, and the strings hold no terminator.
  predicate Encodable(i: Info<Byte>)
  {
    && 20 + Total(i) + 2 < 0x8000_0000
    && CText(i.executable) && CText(i.ldLibraryPath) && CText(i.ldPreload) && CText(i.cwd) && CText(i.pathComponent)
  }

  predicate CText(t: Text)
  {
    t.Some? ==> 0 !in t.value
  }

  // static_tls_info_encode_size_needed
  function SizeNeeded(i: Info<Byte>): nat
  {
    20 + Total(i) + 2
  }

  function Lengths(i: Info<Byte>): seq<Byte>
    requires Encodable(i)
  {
    EncodeU32(Stored(i.executable)) + EncodeU32(Stored(i.ldLibraryPath)) + EncodeU32(Stored(i.ldPreload)) +
    EncodeU32(Stored(i.cwd)) + EncodeU32(Stored(i.pathComponent))
  }

  function Strings(i: Info<Byte>): seq<Byte>
  {
    Written(i.executable) + (Written(i.ldLibraryPath) + (Written(i.ldPreload) +
      (Written(i.cwd) + (Written(i.pathComponent) + [0]))))
  }

  function Encoded(i: Info<Byte>): seq<Byte>
    requires Encodable(i)
  {
    Lengths(i) + Strings(i)
  }

  // strdup at an index; None if there is no terminator in what follows
  function TextAt(b: seq<Byte>, at: nat): Option<seq<Byte>>
    decreases |b| - at
  {
    if at >= |b| then None
    else if b[at] == 0 then Some([])
    else After(b[at], TextAt(b, at + 1))
  }

  function After(c: Byte, t: Option<seq<Byte>>): Option<seq<Byte>>
  {
    if t.None? then None else Some([c] + t.value)
  }

  const INT_LIMIT: int := 0x8000_0000

  predicate FitsInt(x: int)
  {
    -INT_LIMIT <= x < INT_LIMIT
  }

  // memcpy into an int
  function IntAt(b: seq<Byte>, at: nat): int
    requires at + 4 <= |b|
  {
    var v := DecodeU32(b[at..at + 4]);
    if v < INT_LIMIT then v else v - TWO_32
  }

  // Undefined: the C code overflows an int or reads outside the buffer.
  datatype Outcome = Refused | Undefined | Accepted(info: Info<Byte>)

  // One string at the cursor; None if it is not inside the buffer with its terminator.
  function FieldAt(b: seq<Byte>, cur: int, len: int): Option<Text>
  {
    if len == 0 then Some(None)
    else if cur < 0 || TextAt(b, cur).None? then None
    else Some(TextAt(b, cur))
  }

  function Fields(t1: Option<Text>, t2: Option<Text>, t3: Option<Text>, t4: Option<Text>, t5: Option<Text>): Outcome
  {
    if t1.Some? && t2.Some? && t3.Some? && t4.Some? && t5.Some?
    then Accepted(Info(t1.value, t2.value, t3.value, t4.value, t5.value))
    else Undefined
  }

  // The strings one after the other, from a cursor on.
  function FieldsFrom(b: seq<Byte>, cur: int, l1: int, l2: int, l3: int, l4: int, l5: int): Outcome
  {
    Fields(FieldAt(b, cur, l1), FieldAt(b, cur + l1, l2), FieldAt(b, cur + l1 + l2, l3),
      FieldAt(b, cur + l1 + l2 + l3, l4), FieldAt(b, cur + l1 + l2 + l3 + l4, l5))
  }

  predicate SumsFit(l1: int, l2: int, l3: int, l4: int, l5: int)
  {
    FitsInt(20 + l1) && FitsInt(20 + l1 + l2) && FitsInt(20 + l1 + l2 + l3) &&
    FitsInt(20 + l1 + l2 + l3 + l4) && FitsInt(20 + l1 + l2 + l3 + l4 + l5)
  }

  function DecodeWith(b: seq<Byte>, l1: int, l2: int, l3: int, l4: int, l5: int): Outcome
  {
    if !SumsFit(l1, l2, l3, l4, l5) then Undefined
    else if |b| < 20 + l1 + l2 + l3 + l4 + l5 then Refused
    else FieldsFrom(b, 20, l1, l2, l3, l4, l5)
  }

  function Decoded(b: seq<Byte>): Outcome
  {
    if |b| < 20 then Refused
    else DecodeWith(b, IntAt(b, 0), IntAt(b, 4), IntAt(b, 8), IntAt(b, 12), IntAt(b, 16))
  }

  // The bytes w stand in b from an index on.
  predicate Holds(b: seq<Byte>, at: nat, w: seq<Byte>)
    decreases |w|
  {
    w == [] || (at < |b| && b[at] == w[0] && Holds(b, at + 1, w[1..]))
  }

  lemma {:induction false} HoldsJoin(b: seq<Byte>, at: nat, v: seq<Byte>, w: seq<Byte>)
    requires Holds(b, at, v + w)
    ensures Holds(b, at, v) && Holds(b, at + |v|, w)
    decreases |v|
  {
    if v == [] {
      assert v + w == w;
    } else {
      assert (v + w)[0] == v[0] && (v + w)[1..] == v[1..] + w;
      HoldsJoin(b, at + 1, v[1..], w);
    }
  }

  lemma {:induction false} HoldsEnd(a: seq<Byte>, w: seq<Byte>)
    ensures Holds(a + w, |a|, w)
    decreases |w|
  {
    if w != [] {
      assert a + [w[0]] + w[1..] == a + w;
      HoldsEnd(a + [w[0]], w[1..]);
    }
  }

  // A string is read back.
  lemma {:induction false} TextRead(b: seq<Byte>, at: nat, t: seq<Byte>)
    requires Holds(b, at, t + [0]) && 0 !in t
    ensures TextAt(b, at) == Some(t)
    decreases |t|
  {
    if t != [] {
      assert (t + [0])[0] == t[0] && t[0] in t && (t + [0])[1..] == t[1..] + [0];
      TextRead(b, at + 1, t[1..]);
      assert [t[0]] + t[1..] == t;
    }
  }

  lemma FieldRead(b: seq<Byte>, at: nat, t: Text)
    requires CText(t) && Holds(b, at, Written(t))
    ensures FieldAt(b, at, Stored(t)) == Some(t)
  {
    if t.Some? {
      TextRead(b, at, t.value);
    }
  }

  // The strings of a record stand in a buffer one after the other, from byte 20 on.
  predicate StringsAt(b: seq<Byte>, i: Info<Byte>)
  {
    var l1, l2, l3, l4, l5 :=
      Stored(i.executable), Stored(i.ldLibraryPath), Stored(i.ldPreload), Stored(i.cwd), Stored(i.pathComponent);
    && FieldAt(b, 20, l1) == Some(i.executable) && FieldAt(b, 20 + l1, l2) == Some(i.ldLibraryPath)
    && FieldAt(b, 20 + l1 + l2, l3) == Some(i.ldPreload) && FieldAt(b, 20 + l1 + l2 + l3, l4) == Some(i.cwd)
    && FieldAt(b, 20 + l1 + l2 + l3 + l4, l5) == Some(i.pathComponent)
  }

  lemma StringsRoundTrip(b: seq<Byte>, i: Info<Byte>)
    requires Encodable(i) && Holds(b, 20, Strings(i))
    ensures StringsAt(b, i)
  {
    var x5 := Written(i.pathComponent) + [0];
    var x4 := Written(i.cwd) + x5;
    var x3 := Written(i.ldPreload) + x4;
    var x2 := Written(i.ldLibraryPath) + x3;
    var c2 := 20 + Stored(i.executable);
    var c3 := c2 + Stored(i.ldLibraryPath);
    var c4 := c3 + Stored(i.ldPreload);
    var c5 := c4 + Stored(i.cwd);
    FieldAndRest(b, 20, i.executable, x2);
    FieldAndRest(b, c2, i.ldLibraryPath, x3);
    FieldAndRest(b, c3, i.ldPreload, x4);
    FieldAndRest(b, c4, i.cwd, x5);
    FieldAndRest(b, c5, i.pathComponent, [0]);
  }

  lemma FieldAndRest(b: seq<Byte>, at: nat, t: Text, x: seq<Byte>)
    requires CText(t) && Holds(b, at, Written(t) + x)
    ensures FieldAt(b, at, Stored(t)) == Some(t) && Holds(b, at + Stored(t), x)
  {
    HoldsJoin(b, at, Written(t), x);
    FieldRead(b, at, t);
  }

  lemma LengthsRoundTrip(i: Info<Byte>)
    requires Encodable(i)
    ensures |Lengths(i)| == 20
    ensures IntAt(Lengths(i), 0) == Stored(i.executable) && IntAt(Lengths(i), 4) == Stored(i.ldLibraryPath)
    ensures IntAt(Lengths(i), 8) == Stored(i.ldPreload) && IntAt(Lengths(i), 12) == Stored(i.cwd)
    ensures IntAt(Lengths(i), 16) == Stored(i.pathComponent)
  {
    var b := Lengths(i);
    var s1, s2, s3, s4, s5 := Stored(i.executable), Stored(i.ldLibraryPath), Stored(i.ldPreload), Stored(i.cwd), Stored(i.pathComponent);
    assert b[0..4] == EncodeU32(s1) && b[4..8] == EncodeU32(s2) && b[8..12] == EncodeU32(s3);
    assert b[12..16] == EncodeU32(s4) && b[16..20] == EncodeU32(s5);
    U32RoundTrip(s1);
    U32RoundTrip(s2);
    U32RoundTrip(s3);
    U32RoundTrip(s4);
    U32RoundTrip(s5);
  }

  lemma InLengths(a: seq<Byte>, b: seq<Byte>, at: nat)
    requires at + 4 <= |a|
    ensures IntAt(a + b, at) == IntAt(a, at)
  {
    assert (a + b)[at..at + 4] == a[at..at + 4];
  }

  // The lengths of a record stand at the front of a buffer, four bytes each.
  predicate LengthsAt(b: seq<Byte>, i: Info<Byte>)
  {
    && |b| >= 20
    && IntAt(b, 0) == Stored(i.executable) && IntAt(b, 4) == Stored(i.ldLibraryPath) && IntAt(b, 8) == Stored(i.ldPreload)
    && IntAt(b, 12) == Stored(i.cwd) && IntAt(b, 16) == Stored(i.pathComponent)
  }

  /** The wire form in bytes: five lengths of four bytes in the order of the record .. */
  lemma LengthLayout(i: Info<Byte>)
    requires Encodable(i)
    ensures LengthsAt(Encoded(i), i)
  {
    LengthsRoundTrip(i);
    var a, s := Lengths(i), Strings(i);
    InLengths(a, s, 0);
    InLengths(a, s, 4);
    InLengths(a, s, 8);
    InLengths(a, s, 12);
    InLengths(a, s, 16);
  }

  /** .. then the strings that are there, in the same order: each is read where the lengths
      before it end. */
  lemma StringLayout(i: Info<Byte>)
    requires Encodable(i)
    ensures |Encoded(i)| == 20 + Total(i) + 1 && StringsAt(Encoded(i), i)
  {
    LengthsRoundTrip(i);
    HoldsEnd(Lengths(i), Strings(i));
    StringsRoundTrip(Encoded(i), i);
  }

  lemma DecodesTo(b: seq<Byte>, i: Info<Byte>)
    requires Encodable(i) && LengthsAt(b, i) && StringsAt(b, i) && |b| >= 20 + Total(i)
    ensures Decoded(b) == Accepted(i)
  {
  }

  /** Encoding then decoding is the identity; a null pointer and "" stay apart. */
  lemma EncodeDecode(i: Info<Byte>)
    requires Encodable(i)
    ensures Decoded(Encoded(i)) == Accepted(i)
  {
    LengthLayout(i);
    StringLayout(i);
    DecodesTo(Encoded(i), i);
  }

  // The five lengths are not negative and their sum is within an int.
  predicate GoodLengths(b: seq<Byte>)
    requires |b| >= 20
  {
    && IntAt(b, 0) >= 0 && IntAt(b, 4) >= 0 && IntAt(b, 8) >= 0 && IntAt(b, 12) >= 0 && IntAt(b, 16) >= 0
    && 20 + IntAt(b, 0) + IntAt(b, 4) + IntAt(b, 8) + IntAt(b, 12) + IntAt(b, 16) < INT_LIMIT
  }

  lemma {:induction false} TextInside(b: seq<Byte>, at: nat)
    requires at < |b| && b[|b| - 1] == 0
    ensures TextAt(b, at).Some?
    decreases |b| - at
  {
    if b[at] != 0 {
      TextInside(b, at + 1);
    }
  }

  lemma FieldInside(b: seq<Byte>, cur: int, len: int)
    requires b != [] && b[|b| - 1] == 0 && 0 <= cur && 0 <= len && cur + len <= |b|
    ensures FieldAt(b, cur, len).Some?
  {
    if len > 0 {
      TextInside(b, cur);
    }
  }

  /** Whatever else it holds, a buffer that ends in a terminator and has good lengths is
      decoded or refused inside its bounds, and refused exactly when the lengths need more
      than there is. */
  lemma DecodesInside(b: seq<Byte>)
    requires |b| >= 20 && b[|b| - 1] == 0 && GoodLengths(b)
    ensures !Decoded(b).Undefined?
    ensures Decoded(b).Refused? <==> |b| < 20 + IntAt(b, 0) + IntAt(b, 4) + IntAt(b, 8) + IntAt(b, 12) + IntAt(b, 16)
  {
    var l1, l2, l3, l4, l5 := IntAt(b, 0), IntAt(b, 4), IntAt(b, 8), IntAt(b, 12), IntAt(b, 16);
    if 20 + l1 + l2 + l3 + l4 + l5 <= |b| {
      FieldInside(b, 20, l1);
      FieldInside(b, 20 + l1, l2);
      FieldInside(b, 20 + l1 + l2, l3);
      FieldInside(b, 20 + l1 + l2 + l3, l4);
      FieldInside(b, 20 + l1 + l2 + l3 + l4, l5);
    }
  }

  // --------------------------------------------------------------- the two cursors

  method PutInt(buffer: array<Byte>, cur: nat, v: nat) returns (next: nat)
    requires v < TWO_32 && cur + 4 <= buffer.Length
    modifies buffer
    ensures next == cur + 4 && buffer[..next] == old(buffer[..cur]) + EncodeU32(v)
  {
    var e := EncodeU32(v);
    forall k | 0 <= k < 4 { buffer[cur + k] := e[k]; }
    next := cur + 4;
  }

  method PutText(buffer: array<Byte>, cur: nat, t: Text) returns (next: nat)
    requires cur + Stored(t) <= buffer.Length
    modifies buffer
    ensures next == cur + Stored(t) && buffer[..next] == old(buffer[..cur]) + Written(t)
  {
    next := cur;
    if t.Some? {
      var w := t.value + [0];
      forall k | 0 <= k < |w| { buffer[cur + k] := w[k]; }
      next := cur + |w|;
    }
  }

  /** static_tls_info_encode: a byte less than the computed size suffices. */
  method Encode(i: Info<Byte>, buffer: array<Byte>) returns (size: nat)
    requires Encodable(i) && buffer.Length >= SizeNeeded(i) - 1
    modifies buffer
    ensures size == SizeNeeded(i) - 1 && buffer[..size] == Encoded(i)
  {
    var cur := PutInt(buffer, 0, Stored(i.executable));
    cur := PutInt(buffer, cur, Stored(i.ldLibraryPath));
    cur := PutInt(buffer, cur, Stored(i.ldPreload));
    cur := PutInt(buffer, cur, Stored(i.cwd));
    cur := PutInt(buffer, cur, Stored(i.pathComponent));
    assert buffer[..cur] == Lengths(i);
    size := PutStrings(i, buffer, cur);
  }

  method PutStrings(i: Info<Byte>, buffer: array<Byte>, start: nat) returns (cur: nat)
    requires start + Total(i) + 1 <= buffer.Length
    modifies buffer
    ensures cur == start + Total(i) + 1 && buffer[..cur] == old(buffer[..start]) + Strings(i)
  {
    ghost var b := buffer[..start];
    cur := PutText(buffer, start, i.executable);
    cur := PutText(buffer, cur, i.ldLibraryPath);
    cur := PutText(buffer, cur, i.ldPreload);
    cur := PutText(buffer, cur, i.cwd);
    cur := PutText(buffer, cur, i.pathComponent);
    ghost var before := buffer[..cur];
    buffer[cur] := 0;
    cur := cur + 1;
    assert buffer[..cur] == before + [0];
    Nested(b, Written(i.executable), Written(i.ldLibraryPath), Written(i.ldPreload), Written(i.cwd), Written(i.pathComponent), [0]);
  }

  lemma Nested<T>(b: seq<T>, t1: seq<T>, t2: seq<T>, t3: seq<T>, t4: seq<T>, t5: seq<T>, t6: seq<T>)
    ensures b + t1 + t2 + t3 + t4 + t5 + t6 == b + (t1 + (t2 + (t3 + (t4 + (t5 + t6)))))
  {
  }

  method GetInt(buffer: array<Byte>, len: nat, at: nat) returns (v: int)
    requires at + 4 <= len <= buffer.Length
    ensures v == IntAt(buffer[..len], at)
  {
    assert buffer[..len][at..at + 4] == buffer[at..at + 4];
    v := DecodeU32(buffer[at..at + 4]);
    if v >= INT_LIMIT {
      v := v - TWO_32;
    }
  }

  // strdup at the cursor, if a length was stored
  method GetText(buffer: array<Byte>, len: nat, cur: int, l: int) returns (t: Option<Text>)
    requires len <= buffer.Length
    ensures t == FieldAt(buffer[..len], cur, l)
  {
    if l == 0 {
      return Some(None);
    }
    if cur < 0 {
      return None;
    }
    var text := StrDup(buffer, len, cur);
    t := if text.None? then None else Some(text);
  }

  method StrDup(buffer: array<Byte>, len: nat, at: nat) returns (t: Option<seq<Byte>>)
    requires len <= buffer.Length
    ensures t == TextAt(buffer[..len], at)
  {
    ghost var b := buffer[..len];
    var text: seq<Byte> := [];
    var k: nat := at;
    JoinNothing(TextAt(b, at));
    while k < len && buffer[k] != 0
      invariant at <= k
      invariant TextAt(b, at) == Join(text, TextAt(b, k))
      decreases len - k
    {
      JoinAfter(text, buffer[k], TextAt(b, k + 1));
      text := text + [buffer[k]];
      k := k + 1;
    }
    if k >= len {
      return None;
    }
    assert text + [] == text;
    return Some(text);
  }

  function Join(a: seq<Byte>, t: Option<seq<Byte>>): Option<seq<Byte>>
  {
    if t.None? then None else Some(a + t.value)
  }

  lemma JoinNothing(t: Option<seq<Byte>>)
    ensures Join([], t) == t
  {
    if t.Some? {
      assert [] + t.value == t.value;
    }
  }

  lemma JoinAfter(a: seq<Byte>, c: Byte, t: Option<seq<Byte>>)
    ensures Join(a, After(c, t)) == Join(a + [c], t)
  {
    if t.Some? {
      Regroup(a, [c], t.value);
    }
  }

  /** static_tls_info_decode on the first len bytes of a buffer. */
  method Decode(buffer: array<Byte>, len: nat) returns (r: Outcome)
    requires len <= buffer.Length
    ensures r == Decoded(buffer[..len])
  {
    if len < 20 {
      return Refused;
    }
    var l1 := GetInt(buffer, len, 0);
    var l2 := GetInt(buffer, len, 4);
    var l3 := GetInt(buffer, len, 8);
    var l4 := GetInt(buffer, len, 12);
    var l5 := GetInt(buffer, len, 16);
    if !SumsFit(l1, l2, l3, l4, l5) {
      return Undefined;
    }
    if len < 20 + l1 + l2 + l3 + l4 + l5 {
      return Refused;
    }
    r := GetTexts(buffer, len, 20, l1, l2, l3, l4, l5);
  }

  method GetTexts(buffer: array<Byte>, len: nat, start: int, l1: int, l2: int, l3: int, l4: int, l5: int) returns (r: Outcome)
    requires len <= buffer.Length
    ensures r == FieldsFrom(buffer[..len], start, l1, l2, l3, l4, l5)
  {
    var cur := start;
    var executable := GetText(buffer, len, cur, l1);
    cur := cur + l1;
    var ldLibraryPath := GetText(buffer, len, cur, l2);
    cur := cur + l2;
    var ldPreload := GetText(buffer, len, cur, l3);
    cur := cur + l3;
    var cwd := GetText(buffer, len, cur, l4);
    cur := cur + l4;
    var pathComponent := GetText(buffer, len, cur, l5);
    r := Fields(executable, ldLibraryPath, ldPreload, cwd, pathComponent);
  }

  // ------------------------------------------------------------- identifying string

  function Shown(t: Option<string>): string
  {
    if t.None? then "NONE" else t.value
  }

  function Len(t: Option<string>): nat
  {
    if t.None? then 0 else |t.value|
  }

  function Names(i: Info<char>): string
  {
    Shown(i.executable) + ("|" + (Shown(i.ldLibraryPath) + ("|" + (Shown(i.ldPreload) + ("|" +
      (Shown(i.cwd) + ("|" + Shown(i.pathComponent))))))))
  }

  // What snprintf is asked to print.
  function Full(i: Info<char>): string
  {
    Names(i) + "|" + Decimal(Len(i.executable)) + "|" + Decimal(Len(i.ldLibraryPath)) + "|" +
    Decimal(Len(i.ldPreload)) + "|" + Decimal(Len(i.cwd)) + "|" + Decimal(Len(i.pathComponent))
  }

  // static_tls_info_to_idstr: the buffer allows sixteen digits for each length.
  function IdStr(i: Info<char>): string
  {
    var size := |Shown(i.executable)| + |Shown(i.ldLibraryPath)| + |Shown(i.ldPreload)| +
                |Shown(i.cwd)| + |Shown(i.pathComponent)| + 10 + 16 * 5;
    if |Full(i)| < size then Full(i) else Full(i)[..size - 1]
  }

  predicate Short(i: Info<char>)
  {
    && Len(i.executable) < Pow10(16) && Len(i.ldLibraryPath) < Pow10(16) && Len(i.ldPreload) < Pow10(16)
    && Len(i.cwd) < Pow10(16) && Len(i.pathComponent) < Pow10(16)
  }

  lemma NothingCut(i: Info<char>)
    requires Short(i)
    ensures IdStr(i) == Full(i)
  {
    DecimalLength(Len(i.executable), 16);
    DecimalLength(Len(i.ldLibraryPath), 16);
    DecimalLength(Len(i.ldPreload), 16);
    DecimalLength(Len(i.cwd), 16);
    DecimalLength(Len(i.pathComponent), 16);
  }

  // The last number is found after the last bar.
  lemma LastNumber(x: string, n: nat, y: string, m: nat)
    requires x + "|" + Decimal(n) == y + "|" + Decimal(m)
    ensures x == y && n == m
  {
    var s, t := x + "|" + Decimal(n), y + "|" + Decimal(m);
    assert s[|x|] == '|' && forall k :: |x| < k < |s| ==> s[k] == Decimal(n)[k - |x| - 1];
    assert t[|y|] == '|' && forall k :: |y| < k < |t| ==> t[k] == Decimal(m)[k - |y| - 1];
    assert |x| == |y|;
    assert x == s[..|x|] == t[..|y|] == y;
    assert Decimal(n) == s[|x| + 1..] == t[|y| + 1..] == Decimal(m);
    ValueOfDecimal(n);
    ValueOfDecimal(m);
  }

  // Knowing its length, the first field is found before a bar.
  lemma FirstField(f: Option<string>, x: string, g: Option<string>, y: string)
    requires Shown(f) + ("|" + x) == Shown(g) + ("|" + y) && Len(f) == Len(g)
    ensures f == g && x == y
  {
    var s, t := Shown(f) + ("|" + x), Shown(g) + ("|" + y);
    assert s[|Shown(f)|] == '|' && t[|Shown(g)|] == '|';
    assert f.None? ==> s[0] == 'N';
    assert g.None? ==> t[0] == 'N';
    assert |Shown(f)| == |Shown(g)|;
    assert Shown(f) == s[..|Shown(f)|] && Shown(g) == t[..|Shown(g)|];
    assert x == s[|Shown(f)| + 1..] && y == t[|Shown(g)| + 1..];
  }

  lemma SameLengths(i: Info<char>, j: Info<char>)
    requires Full(i) == Full(j)
    ensures Names(i) == Names(j)
    ensures Len(i.executable) == Len(j.executable) && Len(i.ldLibraryPath) == Len(j.ldLibraryPath)
    ensures Len(i.ldPreload) == Len(j.ldPreload) && Len(i.cwd) == Len(j.cwd)
    ensures Len(i.pathComponent) == Len(j.pathComponent)
  {
    var a4 := Names(i) + "|" + Decimal(Len(i.executable)) + "|" + Decimal(Len(i.ldLibraryPath)) + "|" +
              Decimal(Len(i.ldPreload)) + "|" + Decimal(Len(i.cwd));
    var b4 := Names(j) + "|" + Decimal(Len(j.executable)) + "|" + Decimal(Len(j.ldLibraryPath)) + "|" +
              Decimal(Len(j.ldPreload)) + "|" + Decimal(Len(j.cwd));
    LastNumber(a4, Len(i.pathComponent), b4, Len(j.pathComponent));
    var a3 := Names(i) + "|" + Decimal(Len(i.executable)) + "|" + Decimal(Len(i.ldLibraryPath)) + "|" + Decimal(Len(i.ldPreload));
    var b3 := Names(j) + "|" + Decimal(Len(j.executable)) + "|" + Decimal(Len(j.ldLibraryPath)) + "|" + Decimal(Len(j.ldPreload));
    LastNumber(a3, Len(i.cwd), b3, Len(j.cwd));
    var a2 := Names(i) + "|" + Decimal(Len(i.executable)) + "|" + Decimal(Len(i.ldLibraryPath));
    var b2 := Names(j) + "|" + Decimal(Len(j.executable)) + "|" + Decimal(Len(j.ldLibraryPath));
    LastNumber(a2, Len(i.ldPreload), b2, Len(j.ldPreload));
    var a1 := Names(i) + "|" + Decimal(Len(i.executable));
    var b1 := Names(j) + "|" + Decimal(Len(j.executable));
    LastNumber(a1, Len(i.ldLibraryPath), b1, Len(j.ldLibraryPath));
    LastNumber(Names(i), Len(i.executable), Names(j), Len(j.executable));
  }

  /** Two records have the same identifying string only if they are the same, whatever
      bars, digits or "NONE" their strings contain. */
  lemma IdStrInjective(i: Info<char>, j: Info<char>)
    requires Short(i) && Short(j) && IdStr(i) == IdStr(j)
    ensures i == j
  {
    NothingCut(i);
    NothingCut(j);
    SameLengths(i, j);
    var i4, j4 := Shown(i.cwd) + ("|" + Shown(i.pathComponent)), Shown(j.cwd) + ("|" + Shown(j.pathComponent));
    var i3, j3 := Shown(i.ldPreload) + ("|" + i4), Shown(j.ldPreload) + ("|" + j4);
    var i2, j2 := Shown(i.ldLibraryPath) + ("|" + i3), Shown(j.ldLibraryPath) + ("|" + j3);
    FirstField(i.executable, i2, j.executable, j2);
    FirstField(i.ldLibraryPath, i3, j.ldLibraryPath, j3);
    FirstField(i.ldPreload, i4, j.ldPreload, j4);
    FirstField(i.cwd, Shown(i.pathComponent), j.cwd, Shown(j.pathComponent));
  }

  /** The form of the string, on a record with only an executable. */
  lemma IdStrExample()
    ensures IdStr(Info(Some("a|b"), None, Some(""), None, None)) == "a|b|NONE||NONE|NONE|3|0|0|0|0"
  {
    var i := Info(Some("a|b"), None, Some(""), None, None);
    assert Decimal(3) == "3" && Decimal(0) == "0";
    assert Names(i) == "a|b|NONE||NONE|NONE";
  }
}
