/**
 * The catalog-driven decoder of jkRead (jkcmd.c:466-475) and readRegVal
 * (jkcmd.c:338-374): the register table is walked in order, every row whose
 * register lies in the group's window is read from the payload at offset
 * (register - base), and the walk stops at the first row whose bytes were
 * not received.
 *
 * The guard at jkcmd.c:468 as written compares only the offset with the
 * number of captured bytes; the walk here uses the in-bounds condition
 * payload + offset + width <= n, and the written guard is modelled beside
 * it (AsWrittenReadsFrom) with an input on which the two differ.
 */
module Decoder {
  import opened Bytes
  import opened Catalog
  import opened Decimal

  /** What readRegVal obtains for one register; Rendered gives the text it leaves in regVal. */
  datatype FieldValue =
    | Unsigned(u: nat)
    | Signed(i: int)
    | FloatBits(raw: seq<bv8>)
    | Text(raw: seq<bv8>)

  /** A decoded register: its table row and its value. */
  datatype Field = Field(spec: RegSpec, value: FieldValue)

  /** The result of one walk: every field read, and whether the walk ran to the end of the table. */
  datatype Outcome = Complete(fields: seq<Field>) | MissingData(fields: seq<Field>)

  /** Size of regVal (jkcmd.c:334). */
  const RegValSize: nat := 128

  /** readRegVal's reading of the raw bytes of a field of type `kind`. */
  function Interpret(kind: RegType, raw: seq<bv8>): (v: FieldValue)
    ensures v.Unsigned? <==> IsUnsigned(kind)
    ensures v.Signed? <==> IsSigned(kind)
    ensures v.FloatBits? <==> kind == Float32
    ensures v.Text? <==> IsText(kind)
    ensures v.FloatBits? || v.Text? ==> v.raw == raw
  {
    if IsUnsigned(kind) then Unsigned(LeUnsigned(raw))
    else if IsSigned(kind) then Signed(LeSigned(raw))
    else if kind == Float32 then FloatBits(raw)
    else Text(raw)
  }

  /** The field's bytes lie inside the captured bytes: payload + (reg - base) + width <= n. */
  predicate Fits(e: RegSpec, n: nat, payload: nat, base: nat) {
    base <= e.reg && payload + (e.reg - base) + Width(e.kind) <= n
  }

  /** The raw bytes of row e in the captured bytes s. */
  function RawField(s: seq<bv8>, payload: nat, base: nat, e: RegSpec): seq<bv8>
    requires Fits(e, |s|, payload, base)
  {
    s[payload + (e.reg - base)..payload + (e.reg - base) + Width(e.kind)]
  }

  /** The raw bytes of a field in the first n bytes of b are the same slice of b itself. */
  lemma RawFieldOfPrefix(b: seq<bv8>, n: nat, payload: nat, base: nat, e: RegSpec)
    requires n <= |b| && Fits(e, n, payload, base)
    ensures RawField(b[..n], payload, base, e) == b[payload + (e.reg - base)..payload + (e.reg - base) + Width(e.kind)]
  {
  }

  /** The value of row e in the captured bytes s. */
  function FieldAt(s: seq<bv8>, payload: nat, base: nat, e: RegSpec): FieldValue
    requires Fits(e, |s|, payload, base)
  {
    Interpret(e.kind, RawField(s, payload, base, e))
  }

  /** Unsigned types read as the little-endian value of exactly their width. */
  lemma InterpretUnsigned(kind: RegType, raw: seq<bv8>)
    requires IsUnsigned(kind) && |raw| == Width(kind)
    ensures Interpret(kind, raw) == Unsigned(LeUnsigned(raw))
    ensures Interpret(kind, raw).u < Pow256(|raw|)
  {
    LeUnsignedBound(raw);
  }

  /** Signed types read as the two's-complement value of exactly their width. */
  lemma InterpretSigned(kind: RegType, raw: seq<bv8>)
    requires IsSigned(kind) && |raw| == Width(kind)
    ensures Interpret(kind, raw) == Signed(LeSigned(raw))
    ensures -(Pow256(|raw|) as int) <= 2 * Interpret(kind, raw).i < Pow256(|raw|)
  {
    LeSignedRange(raw);
  }

  /** Text is the 16 or 8 bytes verbatim; a float is its 4 bytes, uninterpreted. */
  lemma InterpretVerbatim(kind: RegType, raw: seq<bv8>)
    requires !IsUnsigned(kind) && !IsSigned(kind) && |raw| == Width(kind)
    ensures IsText(kind) ==> Interpret(kind, raw) == Text(raw) && |raw| == (if kind == Char16 then 16 else 8)
    ensures kind == Float32 ==> Interpret(kind, raw) == FloatBits(raw) && |raw| == 4
  {
  }

  /** The 4-byte value 64 00 00 00 of a UInt32 row reads as 100. */
  lemma InterpretExample()
    ensures Interpret(UInt32, [0x64, 0x00, 0x00, 0x00]) == Unsigned(100)
    ensures Interpret(Int16, [0xFF, 0xFF]) == Signed(-1)
  {
    LeExample();
  }

  /** Fields read before a walk's own fields. */
  function Extend(prefix: seq<Field>, o: Outcome): Outcome {
    match o
    case Complete(fs) => Complete(prefix + fs)
    case MissingData(fs) => MissingData(prefix + fs)
  }

  /** The rows from index i on whose register lies in the window at `base`, in table order. */
  function SelectedFrom(cat: seq<RegSpec>, i: nat, base: nat): seq<RegSpec>
    decreases |cat| - i
  {
    if i >= |cat| then []
    else if InWindow(cat[i].reg, base) then [cat[i]] + SelectedFrom(cat, i + 1, base)
    else SelectedFrom(cat, i + 1, base)
  }

  /** The walk from row i over the captured bytes s, payload starting at `payload`. */
  function WalkFrom(cat: seq<RegSpec>, i: nat, s: seq<bv8>, payload: nat, base: nat): Outcome
    decreases |cat| - i
  {
    if i >= |cat| then Complete([])
    else if !InWindow(cat[i].reg, base) then WalkFrom(cat, i + 1, s, payload, base)
    else if !Fits(cat[i], |s|, payload, base) then MissingData([])
    else Extend([Field(cat[i], FieldAt(s, payload, base, cat[i]))], WalkFrom(cat, i + 1, s, payload, base))
  }

  /** The decode of a whole group. */
  function Walk(cat: seq<RegSpec>, s: seq<bv8>, payload: nat, base: nat): Outcome {
    WalkFrom(cat, 0, s, payload, base)
  }

  /** A row is selected exactly when it is in the table and its register is in the window. */
  lemma {:induction false} SelectedFromMembers(cat: seq<RegSpec>, i: nat, base: nat, e: RegSpec)
    requires i <= |cat|
    ensures e in SelectedFrom(cat, i, base) <==> e in cat[i..] && InWindow(e.reg, base)
    decreases |cat| - i
  {
    if i < |cat| {
      SelectedFromMembers(cat, i + 1, base, e);
      assert cat[i..] == [cat[i]] + cat[i + 1..];
    }
  }

  /**
   * What the walk emits: the selected rows in table order, each read from
   * inside the captured bytes, up to the first selected row whose bytes were
   * not all received; it is Complete exactly when every selected row was read.
   */
  lemma {:induction false} WalkFromSpec(cat: seq<RegSpec>, i: nat, s: seq<bv8>, payload: nat, base: nat)
    ensures |WalkFrom(cat, i, s, payload, base).fields| <= |SelectedFrom(cat, i, base)|
    ensures forall k :: 0 <= k < |WalkFrom(cat, i, s, payload, base).fields| ==>
      var e := SelectedFrom(cat, i, base)[k];
      WalkFrom(cat, i, s, payload, base).fields[k].spec == e &&
      Fits(e, |s|, payload, base) &&
      WalkFrom(cat, i, s, payload, base).fields[k].value == FieldAt(s, payload, base, e)
    ensures WalkFrom(cat, i, s, payload, base).Complete? <==>
      |WalkFrom(cat, i, s, payload, base).fields| == |SelectedFrom(cat, i, base)|
    ensures WalkFrom(cat, i, s, payload, base).MissingData? ==>
      !Fits(SelectedFrom(cat, i, base)[|WalkFrom(cat, i, s, payload, base).fields|], |s|, payload, base)
    decreases |cat| - i
  {
    if i < |cat| {
      WalkFromSpec(cat, i + 1, s, payload, base);
      var e := cat[i];
      var rest := WalkFrom(cat, i + 1, s, payload, base);
      if InWindow(e.reg, base) {
        assert SelectedFrom(cat, i, base) == [e] + SelectedFrom(cat, i + 1, base);
        if Fits(e, |s|, payload, base) {
          var f := Field(e, FieldAt(s, payload, base, e));
          assert WalkFrom(cat, i, s, payload, base).fields == [f] + rest.fields;
        }
      }
    }
  }

  /** The whole-table form of WalkFromSpec. */
  lemma WalkSpec(cat: seq<RegSpec>, s: seq<bv8>, payload: nat, base: nat)
    ensures |Walk(cat, s, payload, base).fields| <= |SelectedFrom(cat, 0, base)|
    ensures forall k :: 0 <= k < |Walk(cat, s, payload, base).fields| ==>
      var e := SelectedFrom(cat, 0, base)[k];
      Walk(cat, s, payload, base).fields[k].spec == e &&
      Fits(e, |s|, payload, base) &&
      Walk(cat, s, payload, base).fields[k].value == FieldAt(s, payload, base, e)
    ensures Walk(cat, s, payload, base).Complete? <==>
      |Walk(cat, s, payload, base).fields| == |SelectedFrom(cat, 0, base)|
    ensures Walk(cat, s, payload, base).MissingData? ==>
      !Fits(SelectedFrom(cat, 0, base)[|Walk(cat, s, payload, base).fields|], |s|, payload, base)
  {
    WalkFromSpec(cat, 0, s, payload, base);
  }

  /**
   * The C string readRegVal leaves in regVal for a value: the decimal text
   * sprintf prints for an integer type, the bytes themselves for text. The
   * "%f" text of a float is not modelled.
   */
  function Rendered(v: FieldValue): seq<bv8>
    requires !v.FloatBits?
  {
    match v
    case Unsigned(u) => Digits(u)
    case Signed(i) => SignedDigits(i)
    case Text(raw) => raw
  }

  /** An integer field is at most four bytes wide. */
  lemma IntegerWidthBound(kind: RegType)
    requires IsUnsigned(kind) || IsSigned(kind)
    ensures Pow256(Width(kind)) <= 0x1_0000_0000
  {
    assert Pow256(1) == 0x100;
    assert Pow256(2) == 0x1_0000;
    assert Pow256(4) == 0x1_0000_0000;
  }

  /** Every rendered field of a non-float row fits in regVal with its terminating zero. */
  lemma RenderedFits(kind: RegType, raw: seq<bv8>)
    requires |raw| == Width(kind) && kind != Float32
    ensures |Rendered(Interpret(kind, raw))| < RegValSize
  {
    if IsUnsigned(kind) {
      InterpretUnsigned(kind, raw);
      IntegerWidthBound(kind);
      Digits32(LeUnsigned(raw));
    } else if IsSigned(kind) {
      InterpretSigned(kind, raw);
      IntegerWidthBound(kind);
      Digits32(LeSigned(raw));
    }
  }

  /**
   * readRegVal (jkcmd.c:338-374) for a row whose bytes lie inside buf[..n]:
   * the value of the field, and for every type but FLOAT the C string the
   * source leaves in regVal, which is the rendering of that value followed by
   * a zero byte; the bytes after it are untouched.
   */
  method ReadRegVal(buf: array<bv8>, n: nat, payload: nat, base: nat, e: RegSpec, regVal: array<bv8>)
    returns (v: FieldValue)
    requires n <= buf.Length && regVal.Length == RegValSize && regVal != buf
    requires Fits(e, n, payload, base)
    modifies regVal
    ensures v == FieldAt(buf[..n], payload, base, e)
    ensures e.kind != Float32 ==>
      var text := Rendered(v);
      |text| < RegValSize &&
      regVal[..|text|] == text &&
      regVal[|text|] == 0 &&
      regVal[|text| + 1..] == old(regVal[|text| + 1..])
    ensures IsText(e.kind) ==> Rendered(v) == RawField(buf[..n], payload, base, e)
  {
    var at := payload + (e.reg - base);
    var raw := buf[at..at + Width(e.kind)];
    RawFieldOfPrefix(buf[..], n, payload, base, e);
    v := Interpret(e.kind, raw);
    if e.kind != Float32 {
      RenderedFits(e.kind, raw);
      Store(Rendered(v), regVal);
    }
  }

  /** Writing a C string into regVal: the text, then a zero byte (sprintf, or memcpy and regVal[w] = 0). */
  method Store(text: seq<bv8>, regVal: array<bv8>)
    requires |text| < regVal.Length
    modifies regVal
    ensures regVal[..|text|] == text
    ensures regVal[|text|] == 0
    ensures regVal[|text| + 1..] == old(regVal[|text| + 1..])
  {
    var w := |text|;
    for k := 0 to w
      invariant regVal[..k] == text[..k]
      invariant forall j :: w <= j < regVal.Length ==> regVal[j] == old(regVal[j])
    {
      regVal[k] := text[k];
    }
    ghost var copied := regVal[..w];
    regVal[w] := 0;
    assert regVal[..w] == copied;
    assert forall j :: w + 1 <= j < regVal.Length ==> regVal[j] == old(regVal[j]);
  }

  /**
   * The decode loop of jkRead (jkcmd.c:466-475) over buf[..n] with the
   * payload at `payload`, stopping with MissingData at the first selected
   * row whose bytes were not all received.
   */
  method DecodeGroup(cat: seq<RegSpec>, buf: array<bv8>, n: nat, payload: nat, base: nat, regVal: array<bv8>)
    returns (o: Outcome)
    requires n <= buf.Length && regVal.Length == RegValSize && regVal != buf
    modifies regVal
    ensures o == Walk(cat, buf[..n], payload, base)
  {
    var fields: seq<Field> := [];
    for i := 0 to |cat|
      invariant Walk(cat, buf[..n], payload, base) == Extend(fields, WalkFrom(cat, i, buf[..n], payload, base))
    {
      var e := cat[i];
      if base <= e.reg < base + WindowSize {
        if payload + (e.reg - base) + Width(e.kind) > n {
          return MissingData(fields);
        }
        var v := ReadRegVal(buf, n, payload, base, e, regVal);
        ExtendAssoc(fields, [Field(e, v)], WalkFrom(cat, i + 1, buf[..n], payload, base));
        fields := fields + [Field(e, v)];
      }
    }
    return Complete(fields);
  }

  lemma ExtendAssoc(a: seq<Field>, b: seq<Field>, o: Outcome)
    ensures Extend(a, Extend(b, o)) == Extend(a + b, o)
  {
    assert forall fs: seq<Field> :: a + (b + fs) == (a + b) + fs;
  }

  /**
   * The rows for which the loop as written calls readRegVal, from row i on:
   * the guard of jkcmd.c:468 stops it only when the offset reg - base
   * exceeds the number n of captured bytes.
   */
  function AsWrittenReadsFrom(cat: seq<RegSpec>, i: nat, base: nat, n: nat): (r: seq<RegSpec>)
    ensures |r| <= |SelectedFrom(cat, i, base)| && r == SelectedFrom(cat, i, base)[..|r|]
    ensures forall k :: 0 <= k < |r| ==> InWindow(r[k].reg, base) && r[k].reg - base <= n
    ensures |r| < |SelectedFrom(cat, i, base)| ==> SelectedFrom(cat, i, base)[|r|].reg - base > n
    decreases |cat| - i
  {
    if i >= |cat| then []
    else if !InWindow(cat[i].reg, base) then AsWrittenReadsFrom(cat, i + 1, base, n)
    else if cat[i].reg - base > n then []
    else [cat[i]] + AsWrittenReadsFrom(cat, i + 1, base, n)
  }

  /**
   * The corrected walk reads a prefix of what the loop as written reads: it
   * never reads a row the written loop skips, and stops no later.
   */
  lemma {:induction false} CorrectedReadsPrefix(cat: seq<RegSpec>, i: nat, s: seq<bv8>, payload: nat, base: nat)
    ensures |WalkFrom(cat, i, s, payload, base).fields| <= |AsWrittenReadsFrom(cat, i, base, |s|)|
    ensures forall k :: 0 <= k < |WalkFrom(cat, i, s, payload, base).fields| ==>
      WalkFrom(cat, i, s, payload, base).fields[k].spec == AsWrittenReadsFrom(cat, i, base, |s|)[k]
    decreases |cat| - i
  {
    if i < |cat| {
      CorrectedReadsPrefix(cat, i + 1, s, payload, base);
    }
  }

  /**
   * Conversely, when every row the loop as written admits has its bytes
   * inside the capture, the corrected walk reads exactly those rows, and it
   * runs to the end of the table exactly when the written loop does.
   */
  lemma {:induction false} AgreeInBounds(cat: seq<RegSpec>, i: nat, s: seq<bv8>, payload: nat, base: nat)
    requires forall k :: 0 <= k < |AsWrittenReadsFrom(cat, i, base, |s|)| ==>
      Fits(AsWrittenReadsFrom(cat, i, base, |s|)[k], |s|, payload, base)
    ensures |WalkFrom(cat, i, s, payload, base).fields| == |AsWrittenReadsFrom(cat, i, base, |s|)|
    ensures WalkFrom(cat, i, s, payload, base).Complete? <==>
      |AsWrittenReadsFrom(cat, i, base, |s|)| == |SelectedFrom(cat, i, base)|
    decreases |cat| - i
  {
    if i < |cat| {
      var r := AsWrittenReadsFrom(cat, i, base, |s|);
      if !InWindow(cat[i].reg, base) {
        AgreeInBounds(cat, i + 1, s, payload, base);
      } else if cat[i].reg - base <= |s| {
        var rest := AsWrittenReadsFrom(cat, i + 1, base, |s|);
        assert r == [cat[i]] + rest;
        forall k | 0 <= k < |rest|
          ensures Fits(rest[k], |s|, payload, base)
        {
          assert rest[k] == r[k + 1];
        }
        assert Fits(r[0], |s|, payload, base);
        AgreeInBounds(cat, i + 1, s, payload, base);
        WalkFromSpec(cat, i + 1, s, payload, base);
        WalkFromSpec(cat, i, s, payload, base);
      } else {
        WalkFromSpec(cat, i, s, payload, base);
      }
    }
  }
}
