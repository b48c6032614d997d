/**
 The length decoder of hde64.c.  Its error flags, which Substrate does not look at, are
 left out, except that the two table walks that only set flags are shown to end.
 */
module Hde64 {
  import opened X86Machine
  import opened X86Emit

  /** The bytes in memory from the instruction on. */
  type Stream = nat -> Byte

  const SIZE: nat := 0x211
  const OPCODES: nat := 0x4a
  const PREFIXES: nat := 0x13c
  const OP_LOCK_OK: nat := 0x1ae
  const OP2_LOCK_OK: nat := 0x1c6
  const OP_ONLY_MEM: nat := 0x1d8
  const OP2_ONLY_MEM: nat := 0x1e7

  /** hde64_table in rows of sixteen. */
  function Row(r: nat): seq<Byte> {
    match r
    case 0 => [0xa5, 0xaa, 0xa5, 0xb8, 0xa5, 0xaa, 0xa5, 0xaa, 0xa5, 0xb8, 0xa5, 0xb8, 0xa5, 0xb8, 0xa5, 0xb8]
    case 1 => [0xc0, 0xc0, 0xc0, 0xc0, 0xc0, 0xc0, 0xc0, 0xc0, 0xac, 0xc0, 0xcc, 0xc0, 0xa1, 0xa1, 0xa1, 0xa1]
    case 2 => [0xb1, 0xa5, 0xa5, 0xa6, 0xc0, 0xc0, 0xd7, 0xda, 0xe0, 0xc0, 0xe4, 0xc0, 0xea, 0xea, 0xe0, 0xe0]
    case 3 => [0x98, 0xc8, 0xee, 0xf1, 0xa5, 0xd3, 0xa5, 0xa5, 0xa1, 0xea, 0x9e, 0xc0, 0xc0, 0xc2, 0xc0, 0xe6]
    case 4 => [0x03, 0x7f, 0x11, 0x7f, 0x01, 0x7f, 0x01, 0x3f, 0x01, 0x01, 0xab, 0x8b, 0x90, 0x64, 0x5b, 0x5b]
    case 5 => [0x5b, 0x5b, 0x5b, 0x92, 0x5b, 0x5b, 0x76, 0x90, 0x92, 0x92, 0x5b, 0x5b, 0x5b, 0x5b, 0x5b, 0x5b]
    case 6 => [0x5b, 0x5b, 0x5b, 0x5b, 0x5b, 0x5b, 0x6a, 0x73, 0x90, 0x5b, 0x52, 0x52, 0x52, 0x52, 0x5b, 0x5b]
    case 7 => [0x5b, 0x5b, 0x77, 0x7c, 0x77, 0x85, 0x5b, 0x5b, 0x70, 0x5b, 0x7a, 0xaf, 0x76, 0x76, 0x5b, 0x5b]
    case 8 => [0x5b, 0x5b, 0x5b, 0x5b, 0x5b, 0x5b, 0x5b, 0x5b, 0x5b, 0x86, 0x01, 0x03, 0x01, 0x04, 0x03, 0xd5]
    case 9 => [0x03, 0xd5, 0x03, 0xcc, 0x01, 0xbc, 0x03, 0xf0, 0x03, 0x03, 0x04, 0x00, 0x50, 0x50, 0x50, 0x50]
    case 10 => [0xff, 0x20, 0x20, 0x20, 0x20, 0x01, 0x01, 0x01, 0x01, 0xc4, 0x02, 0x10, 0xff, 0xff, 0xff, 0x01]
    case 11 => [0x00, 0x03, 0x11, 0xff, 0x03, 0xc4, 0xc6, 0xc8, 0x02, 0x10, 0x00, 0xff, 0xcc, 0x01, 0x01, 0x01]
    case 12 => [0x00, 0x00, 0x00, 0x00, 0x01, 0x01, 0x03, 0x01, 0xff, 0xff, 0xc0, 0xc2, 0x10, 0x11, 0x02, 0x03]
    case 13 => [0x01, 0x01, 0x01, 0xff, 0xff, 0xff, 0x00, 0x00, 0x00, 0xff, 0x00, 0x00, 0xff, 0xff, 0xff, 0xff]
    case 14 => [0x10, 0x10, 0x10, 0x10, 0x02, 0x10, 0x00, 0x00, 0xc6, 0xc8, 0x02, 0x02, 0x02, 0x02, 0x06, 0x00]
    case 15 => [0x04, 0x00, 0x02, 0xff, 0x00, 0xc0, 0xc2, 0x01, 0x01, 0x03, 0x03, 0x03, 0xca, 0x40, 0x00, 0x0a]
    case 16 => [0x00, 0x04, 0x00, 0x00, 0x00, 0x00, 0x7f, 0x00, 0x33, 0x01, 0x00, 0x00, 0x00, 0x00, 0x00, 0x00]
    case 17 => [0xff, 0xbf, 0xff, 0xff, 0x00, 0x00, 0x00, 0x00, 0x07, 0x00, 0x00, 0xff, 0x00, 0x00, 0x00, 0x00]
    case 18 => [0x00, 0x00, 0x00, 0x00, 0x00, 0x00, 0x00, 0x00, 0x00, 0x00, 0xff, 0xff, 0x00, 0x00, 0x00, 0xbf]
    case 19 => [0x00, 0x00, 0x00, 0x00, 0x00, 0x00, 0x00, 0x00, 0x7f, 0x00, 0x00, 0xff, 0x40, 0x40, 0x40, 0x40]
    case 20 => [0x41, 0x49, 0x40, 0x40, 0x40, 0x40, 0x4c, 0x42, 0x40, 0x40, 0x40, 0x40, 0x40, 0x40, 0x40, 0x40]
    case 21 => [0x4f, 0x44, 0x53, 0x40, 0x40, 0x40, 0x44, 0x57, 0x43, 0x5c, 0x40, 0x60, 0x40, 0x40, 0x40, 0x40]
    case 22 => [0x40, 0x40, 0x40, 0x40, 0x40, 0x40, 0x40, 0x40, 0x40, 0x40, 0x64, 0x66, 0x6e, 0x6b, 0x40, 0x40]
    case 23 => [0x6a, 0x46, 0x40, 0x40, 0x44, 0x46, 0x40, 0x40, 0x5b, 0x44, 0x40, 0x40, 0x00, 0x00, 0x00, 0x00]
    case 24 => [0x06, 0x06, 0x06, 0x06, 0x01, 0x06, 0x06, 0x02, 0x06, 0x06, 0x00, 0x06, 0x00, 0x0a, 0x0a, 0x00]
    case 25 => [0x00, 0x00, 0x02, 0x07, 0x07, 0x06, 0x02, 0x0d, 0x06, 0x06, 0x06, 0x0e, 0x05, 0x05, 0x02, 0x02]
    case 26 => [0x00, 0x00, 0x04, 0x04, 0x04, 0x04, 0x05, 0x06, 0x06, 0x06, 0x00, 0x00, 0x00, 0x0e, 0x00, 0x00]
    case 27 => [0x08, 0x00, 0x10, 0x00, 0x18, 0x00, 0x20, 0x00, 0x28, 0x00, 0x30, 0x00, 0x80, 0x01, 0x82, 0x01]
    case 28 => [0x86, 0x00, 0xf6, 0xcf, 0xfe, 0x3f, 0xab, 0x00, 0xb0, 0x00, 0xb1, 0x00, 0xb3, 0x00, 0xba, 0xf8]
    case 29 => [0xbb, 0x00, 0xc0, 0x00, 0xc1, 0x00, 0xc7, 0xbf, 0x62, 0xff, 0x00, 0x8d, 0xff, 0x00, 0xc4, 0xff]
    case 30 => [0x00, 0xc5, 0xff, 0x00, 0xff, 0xff, 0xeb, 0x01, 0xff, 0x0e, 0x12, 0x08, 0x00, 0x13, 0x09, 0x00]
    case 31 => [0x16, 0x08, 0x00, 0x17, 0x09, 0x00, 0x2b, 0x09, 0x00, 0xae, 0xff, 0x07, 0xb2, 0xff, 0x00, 0xb4]
    case 32 => [0xff, 0x00, 0xb5, 0xff, 0x00, 0xc3, 0x01, 0x00, 0xc7, 0xff, 0xbf, 0xe7, 0x08, 0x00, 0xf0, 0x02]
    case 33 => [0x00]
    case _ => []
  }

  function Table(i: nat): Byte
    requires i < SIZE
  {
    RowFull(i / 16);
    Row(i / 16)[i % 16]
  }

  lemma RowFull(r: nat)
    ensures r < 33 ==> |Row(r)| == 16
    ensures |Row(33)| == 1
  {
  }


  /** The table as the decoder sees it. */
  function Real(): nat -> Byte { (i: nat) => if i < SIZE then Table(i) else 0 }

  // ------------------------------------------------------------------ the stages

  predicate IsPrefix(c: Byte) {
    || c == 0xf3 || c == 0xf2 || c == 0xf0 || c == 0x26 || c == 0x2e || c == 0x36 || c == 0x3e || c == 0x64
    || c == 0x65 || c == 0x66 || c == 0x67
  }

  datatype Pre = Pre(next: nat, c: Byte, has66: bool, has67: bool)

  /** At most sixteen prefixes; c is the byte that is no prefix, or the sixteenth. */
  function Prefixes(code: Stream, i: nat, has66: bool, has67: bool): (r: Pre)
    requires i < 16
    ensures i < r.next <= 16
    decreases 16 - i
  {
    var c := code(i);
    if !IsPrefix(c) then Pre(i + 1, c, has66, has67)
    else if i == 15 then Pre(16, c, has66 || c == 0x66, has67 || c == 0x67)
    else Prefixes(code, i + 1, has66 || c == 0x66, has67 || c == 0x67)
  }

  /** `opcode` and `second` are what is reported, `key` is what is looked up. */
  datatype Coded = Coded(next: nat, opcode: Byte, second: Byte, key: Byte, op64: bool, has66: bool, has67: bool, rexR: nat, bad: bool)

  function PlainOp(code: Stream, p: nat, c: Byte, has66: bool, has67: bool, op64: bool, rexR: nat): (r: Coded)
    ensures p <= r.next <= p + 1 && r.rexR == rexR
  {
    if c == 0x0f then Coded(p + 1, c, code(p), code(p), op64, has66, has67, rexR, false)
    else if 0xa0 <= c <= 0xa3 then Coded(p, c, 0, c, true, has67, has67, rexR, false)
    else Coded(p, c, 0, c, op64, has66, has67, rexR, false)
  }

  /** The REX prefix and the opcode; two REX prefixes are an error. */
  function GetOp(code: Stream, pre: Pre): (r: Coded)
    ensures pre.next <= r.next <= pre.next + 2 && r.rexR < 2
  {
    if pre.c / 0x10 == 4 then
      var p, c := pre.next, code(pre.next);
      var op64, rexR := pre.c % 0x10 / 8 == 1 && c / 8 == 0x17, pre.c % 8 / 4;
      if c / 0x10 == 4 then Coded(p + 1, 0, 0, c, op64, pre.has66, pre.has67, rexR, true)
      else PlainOp(code, p + 1, c, pre.has66, pre.has67, op64, rexR)
    else PlainOp(code, pre.next, pre.c, pre.has66, pre.has67, false, 0)
  }

  /** The flags of an opcode, looked up through two levels and perhaps a group. */
  function Lookup(t: nat -> Byte, op: Coded): Byte {
    if op.bad then 0
    else
      var base := if op.opcode == 0x0f then OPCODES else 0;
      var f := t(base + t(base + op.key / 4) + op.key % 4);
      var g := if f != 0xff then f else if op.key == 0x24 || op.key == 0x26 then 1 else 0;
      if g >= 0x80 then t(base + g % 0x80) else g
  }

  predicate Has(f: nat, bit: nat)
    requires bit > 0
  {
    f / bit % 2 == 1
  }

  function Or(f: nat, bit: nat): nat
    requires bit > 0
  {
    if Has(f, bit) then f else f + bit
  }

  datatype Operand = Operand(next: nat, flags: nat, modrm: Byte, reg: nat, disp: nat)

  /** The displacement, as far as it is read; the rest of the field is zero. */
  function Little(code: Stream, p: nat, n: nat): (v: nat)
    ensures n <= 4 ==> v < TWO_32
  {
    if n == 1 then code(p)
    else if n == 2 then (code(p) as int) + (code(p + 1) as int) * 0x100
    else if n == 4 then
      (code(p) as int) + (code(p + 1) as int) * 0x100 + (code(p + 2) as int) * 0x1_0000 + (code(p + 3) as int) * 0x100_0000
    else 0
  }

  function DispSize(mod: nat, rm: nat, has67: bool): (n: nat)
    ensures n <= 4
  {
    if mod == 0 then if has67 then (if rm == 6 then 2 else 0) else (if rm == 5 then 4 else 0)
    else if mod == 1 then 1
    else if mod == 2 then if has67 then 2 else 4
    else 0
  }

  function Adjusted(f: nat, key: Byte, reg: nat): nat {
    if reg <= 1 && key == 0xf6 then Or(f, 2) else if reg <= 1 && key == 0xf7 then Or(f, 0x10) else f
  }

  function GetOperand(code: Stream, op: Coded, f: nat): (r: Operand)
    ensures op.next <= r.next <= op.next + 6 && r.reg < 8 && r.disp < TWO_32
  {
    if f % 2 == 0 then Operand(op.next, f, 0, 0, 0)
    else
      var p := op.next;
      var m := code(p);
      var reg, rm := m % 0x40 / 8, m % 8;
      var mod := if op.second != 0 && 0x20 <= op.key <= 0x23 then 3 else m / 0x40;
      var sib := mod != 3 && rm == 4;
      var size := if sib && code(p + 1) % 8 == 5 && mod % 2 == 0 then 4 else DispSize(mod, rm, op.has67);
      var q := if sib then p + 2 else p + 1;
      Operand(q + size, Adjusted(f, op.key, reg), m, reg, Little(code, q, size))
  }

  /** The bytes of the immediate operands. */
  function ImmSize(f: nat, op64: bool, has66: bool): (n: nat)
    ensures n <= 15
  {
    if Has(f, 0x10) && Has(f, 0x40) then if has66 then 2 else 4
    else
      (if !Has(f, 0x10) then 0 else if op64 then 8 else if has66 then 2 else 4)
      + (if Has(f, 4) && !(Has(f, 0x10) && !op64 && has66) then 2 else 0)
      + (if Has(f, 2) then 1 else 0)
      + (if Has(f, 0x40) then 4 else if Has(f, 0x20) then 1 else 0)
  }

  datatype Result = Result(raw: nat, opcode: Byte, modrm: Byte, rexR: nat, reg: nat, disp: nat)

  function Disasm(t: nat -> Byte, code: Stream): (r: Result)
    ensures 1 <= r.raw <= 39 && r.rexR < 2 && r.reg < 8 && r.disp < TWO_32
  {
    var op := GetOp(code, Prefixes(code, 0, false, false));
    var rest := GetOperand(code, op, Lookup(t, op));
    Result(rest.next + ImmSize(rest.flags, op.op64, op.has66), op.opcode, rest.modrm, op.rexR, rest.reg, rest.disp)
  }

  /** hde64_disasm: the length is cast to eight bits and cut at fifteen. */
  function Reported(r: Result): Hde {
    var cast := r.raw % 0x100;
    Hde(if cast > 15 then 15 else cast, r.opcode, r.modrm, r.rexR, r.reg, r.disp)
  }

  // --------------------------------------------------------------- what it reports

  /** Every instruction has one to fifteen bytes, and the cast to eight bits loses nothing. */
  lemma LengthBounds(t: nat -> Byte, code: Stream)
    ensures 1 <= Reported(Disasm(t, code)).len <= 15
    ensures Reported(Disasm(t, code)).len == if Disasm(t, code).raw <= 15 then Disasm(t, code).raw else 15
  {
    Cut(Disasm(t, code));
  }

  lemma Cut(r: Result)
    requires 1 <= r.raw <= 39
    ensures Reported(r).len == if r.raw <= 15 then r.raw else 15
  {
  }

  // ------------------------------------------------------------------- locality

  ghost predicate Agree(c: Stream, d: Stream, n: nat) { forall i: nat :: i < n ==> c(i) == d(i) }

  lemma {:induction false} SamePrefixes(c: Stream, d: Stream, n: nat, i: nat, has66: bool, has67: bool)
    requires i < 16 && Agree(c, d, n) && Prefixes(c, i, has66, has67).next <= n
    ensures Prefixes(d, i, has66, has67) == Prefixes(c, i, has66, has67)
    decreases 16 - i
  {
    assert c(i) == d(i);
    if IsPrefix(c(i)) && i < 15 {
      SamePrefixes(c, d, n, i + 1, has66 || c(i) == 0x66, has67 || c(i) == 0x67);
    }
  }

  lemma SameOp(c: Stream, d: Stream, n: nat, pre: Pre)
    requires Agree(c, d, n) && GetOp(c, pre).next <= n
    ensures GetOp(d, pre) == GetOp(c, pre)
  {
    if pre.c / 0x10 == 4 {
      assert c(pre.next) == d(pre.next);
    }
  }

  lemma SameLittle(c: Stream, d: Stream, p: nat, size: nat)
    requires Agree(c, d, p + size) && size <= 4
    ensures Little(c, p, size) == Little(d, p, size)
  {
  }

  lemma SameOperand(c: Stream, d: Stream, n: nat, op: Coded, f: nat)
    requires Agree(c, d, n) && GetOperand(c, op, f).next <= n
    ensures GetOperand(d, op, f) == GetOperand(c, op, f)
  {
    if f % 2 == 1 {
      var p, m := op.next, c(op.next);
      assert d(p) == m;
      var mod := if op.second != 0 && 0x20 <= op.key <= 0x23 then 3 else m / 0x40;
      var sib := mod != 3 && m % 8 == 4;
      if sib {
        assert c(p + 1) == d(p + 1);
      }
      var size := if sib && c(p + 1) % 8 == 5 && mod % 2 == 0 then 4 else DispSize(mod, m % 8, op.has67);
      SameLittle(c, d, if sib then p + 2 else p + 1, size);
    }
  }

  lemma SameBytes(t: nat -> Byte, c: Stream, d: Stream)
    requires Agree(c, d, Disasm(t, c).raw)
    ensures Disasm(t, d) == Disasm(t, c)
  {
    var n, pre := Disasm(t, c).raw, Prefixes(c, 0, false, false);
    var op := GetOp(c, pre);
    SamePrefixes(c, d, n, 0, false, false);
    SameOp(c, d, n, pre);
    SameOperand(c, d, n, op, Lookup(t, op));
  }

  /** The length depends on no byte behind the instruction, and neither does anything
      else unless the length was cut. */
  lemma Local(t: nat -> Byte, c: Stream, d: Stream)
    requires Agree(c, d, Reported(Disasm(t, c)).len)
    ensures Reported(Disasm(t, d)).len == Reported(Disasm(t, c)).len
    ensures Disasm(t, c).raw <= 15 ==> Disasm(t, d) == Disasm(t, c)
  {
    LengthBounds(t, c);
    LengthBounds(t, d);
    LocalRaw(t, c, d, Disasm(t, c).raw, Disasm(t, d).raw);
  }

  lemma LocalRaw(t: nat -> Byte, c: Stream, d: Stream, m: nat, n: nat)
    requires m == Disasm(t, c).raw && n == Disasm(t, d).raw && Agree(c, d, if m <= 15 then m else 15)
    ensures m <= 15 ==> Disasm(t, d) == Disasm(t, c)
    ensures m > 15 ==> n > 15
  {
    if m <= 15 {
      SameBytes(t, c, d);
    } else if n <= 15 {
      SameBytes(t, d, c);
    }
  }

  // ------------------------------------------------------------------ the tables

  lemma PrefixRow(j: nat)
    requires j < 64
    ensures Table(PREFIXES + j) <= 0x6e
  {
    var i := PREFIXES + j;
    RowsSmall(i / 16, i % 16);
  }

  lemma RowsSmall(r: nat, k: nat)
    requires k < 16 && 19 <= r <= 23 && (r == 19 ==> k >= 12) && (r == 23 ==> k < 12)
    ensures |Row(r)| == 16 && Row(r)[k] <= 0x6e
  {
  }

  /** Whatever the opcode, no lookup leaves the table. */
  lemma LookupsInside(base: nat, key: Byte)
    requires base == 0 || base == OPCODES
    ensures base + key / 4 < SIZE && base + Table(base + key / 4) + key % 4 < SIZE
    ensures base + 0x7f + 1 < SIZE
    ensures PREFIXES + key / 4 < SIZE && PREFIXES + Table(PREFIXES + key / 4) + key % 4 < OP_LOCK_OK
  {
    PrefixRow(key / 4);
  }

  lemma StrideFits(start: nat, stride: nat, k: nat, n: nat)
    requires k < n
    ensures Entry(start, stride, k) + stride <= Entry(start, stride, n)
    ensures Entry(start, stride, k + 1) == Entry(start, stride, k) + stride
  {
    var m: nat := n - k - 1;
    assert stride * n == stride * k + stride + stride * m;
    assert stride * m >= 0;
  }

  /** The searches for an opcode in the tables of pairs and of triples, which only set
      error flags: `while (ht != table_end)` stops exactly at the end. */
  method Search(start: nat, end: nat, stride: nat, op: Byte, ghost n: nat) returns (found: bool, ht: nat)
    requires 0 < stride && end == start + stride * n <= SIZE
    ensures found ==> start <= ht && ht + stride <= end && Table(ht) == op
    ensures !found ==> ht == end
    ensures found <==> exists k: nat :: k < n && IsEntry(start, stride, k, op)
  {
    ht := start;
    ghost var k: nat := 0;
    while ht != end
      invariant k <= n && ht == Entry(start, stride, k) && end == Entry(start, stride, n)
      invariant forall i: nat :: i < k ==> !IsEntry(start, stride, i, op)
      decreases n - k
    {
      StrideFits(start, stride, k, n);
      if Table(ht) == op {
        assert IsEntry(start, stride, k, op);
        return true, ht;
      }
      ht := ht + stride;
      k := k + 1;
    }
    if k < n {
      StrideFits(start, stride, k, n);
    }
    found := false;
  }

  function Entry(start: nat, stride: nat, k: nat): nat { start + stride * k }

  predicate IsEntry(start: nat, stride: nat, k: nat, op: Byte) {
    Entry(start, stride, k) < SIZE && Table(Entry(start, stride, k)) == op
  }

  /** The four tables hold whole entries. */
  lemma TablesWhole()
    ensures OP2_LOCK_OK == OP_LOCK_OK + 2 * 12 && OP_ONLY_MEM == OP2_LOCK_OK + 2 * 9
    ensures OP2_ONLY_MEM == OP_ONLY_MEM + 3 * 5 && SIZE == OP2_ONLY_MEM + 3 * 14
  {
  }

  /** Whether the opcode has an entry among those that may be locked. */
  method FindLock(second: bool, op: Byte) returns (found: bool, ht: nat)
    ensures found <==> if second then Listed(OP2_LOCK_OK, 2, 9, op) else Listed(OP_LOCK_OK, 2, 12, op)
    ensures found ==> OP_LOCK_OK <= ht && ht + 2 <= OP_ONLY_MEM && Table(ht) == op
  {
    TablesWhole();
    if second {
      found, ht := Search(OP2_LOCK_OK, OP_ONLY_MEM, 2, op, 9);
    } else {
      found, ht := Search(OP_LOCK_OK, OP2_LOCK_OK, 2, op, 12);
    }
  }

  /** Whether it has an entry among those whose operand must be in memory. */
  method FindOnlyMem(second: bool, op: Byte) returns (found: bool, ht: nat)
    ensures found <==> if second then Listed(OP2_ONLY_MEM, 3, 14, op) else Listed(OP_ONLY_MEM, 3, 5, op)
    ensures found ==> OP_ONLY_MEM <= ht && ht + 3 <= SIZE && Table(ht) == op
  {
    TablesWhole();
    if second {
      found, ht := Search(OP2_ONLY_MEM, SIZE, 3, op, 14);
    } else {
      found, ht := Search(OP_ONLY_MEM, OP2_ONLY_MEM, 3, op, 5);
    }
  }

  ghost predicate Listed(start: nat, stride: nat, n: nat, op: Byte) {
    exists k: nat :: k < n && IsEntry(start, stride, k, op)
  }
}
