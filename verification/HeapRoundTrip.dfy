/**
 The documented format of the recent-allocations message, and that reading a message
 gives back what was written.
 */
module HeapRoundTrip {
  import opened HeapMessage
  import opened HeapFormat

  /** One entry of the message, its names as indexes into the string tables. */
  datatype Frame = Frame(classIndex: nat, methodIndex: nat, fileIndex: nat, line: int)

  datatype Entry = Entry(size: int, threadId: nat, classIndex: nat, stack: seq<Frame>)

  /** `messageLen`, `entryLen` and `frameLen` are the header's lengths; what they leave
      room for beyond the documented fields may hold anything. */
  datatype Message = Message(messageLen: nat, entryLen: nat, frameLen: nat, entries: seq<Entry>, strings: nat,
                             classes: seq<Text>, methods: seq<Text>, files: seq<Text>)

  // ------------------------------------------------------------------- numbers

  function Short(v: nat): (s: seq<Byte>)
    requires v < 0x1_0000
    ensures |s| == 2
  {
    [v / 0x100, v % 0x100]
  }

  function Unsigned(v: int, n: nat): nat
    requires -(n as int) <= v < n
  {
    if v < 0 then v + 2 * n else v
  }

  function Int(v: int): (s: seq<Byte>)
    requires -0x8000_0000 <= v < 0x8000_0000
    ensures |s| == 4
  {
    var u := Unsigned(v, 0x8000_0000);
    [u / 0x100_0000, u / 0x1_0000 % 0x100, u / 0x100 % 0x100, u % 0x100]
  }

  lemma ReadShort(data: seq<Byte>, p: nat, v: nat)
    requires v < 0x1_0000 && Holds(data, p, Short(v))
    ensures GetShort(data, p) == Got(v, p + 2)
  {
    assert data[p + 0] == Short(v)[0] && data[p + 1] == Short(v)[1];
  }

  lemma ReadInt(data: seq<Byte>, p: nat, v: int)
    requires -0x8000_0000 <= v < 0x8000_0000 && Holds(data, p, Int(v))
    ensures GetInt(data, p) == Got(v, p + 4)
  {
    var s := Int(v);
    assert data[p + 0] == s[0] && data[p + 1] == s[1] && data[p + 2] == s[2] && data[p + 3] == s[3];
    FourBytes(Unsigned(v, 0x8000_0000));
  }

  lemma FourBytes(u: nat)
    requires u < 0x1_0000_0000
    ensures u / 0x100_0000 * 0x100_0000 + u / 0x1_0000 % 0x100 * 0x1_0000 + u / 0x100 % 0x100 * 0x100 + u % 0x100 == u
  {
    assert u / 0x1_0000 == u / 0x100 / 0x100 && u / 0x100_0000 == u / 0x1_0000 / 0x100;
  }

  lemma ReadSigned(data: seq<Byte>, p: nat, v: int)
    requires -0x8000 <= v < 0x8000 && Holds(data, p, Short(Unsigned(v, 0x8000)))
    ensures GetShort(data, p) == Got(Unsigned(v, 0x8000), p + 2) && Signed16(Unsigned(v, 0x8000)) == v
  {
    ReadShort(data, p, Unsigned(v, 0x8000));
  }

  // ------------------------------------------------------------------- strings

  predicate UnitAt(data: seq<Byte>, p: nat, u: Unit) { Holds(data, p, Short(u)) }

  /** A string is its length and its code units. */
  ghost predicate StringAt(data: seq<Byte>, p: nat, s: Text) {
    |s| < 0x8000_0000 && Holds(data, p, Int(|s|)) && ListAt(UnitAt, UnitLen, data, p + 4, s)
  }

  function UnitLen(u: Unit): nat { 2 }

  function StringLen(s: Text): nat { 4 + Offset(UnitLen, s, |s|) }

  lemma ReadUnits(data: seq<Byte>, s: Text)
    ensures Reads(Units(data), UnitAt, UnitLen, Same, data, s)
  {
    forall p: nat, u: Unit | u in s && UnitAt(data, p, u)
      ensures Units(data)(p) == Got(Same(u), p + UnitLen(u))
    {
      ReadShort(data, p, u);
    }
  }

  function Same(u: Unit): Unit { u }

  lemma ReadString(data: seq<Byte>, p: nat, s: Text)
    requires ListAt(UnitAt, UnitLen, data, p, s)
    ensures GetMany(Units(data), p, |s|) == Got(s, p + Offset(UnitLen, s, |s|))
  {
    ReadUnits(data, s);
    ListRead(Units(data), UnitAt, UnitLen, Same, data, s, p);
    assert Mapped(Same, s) == s;
  }

  lemma ReadName(data: seq<Byte>, p: nat, s: Text)
    requires StringAt(data, p, s)
    ensures GetName(data, p) == Got(Dotted(s), p + StringLen(s))
  {
    ReadInt(data, p, |s|);
    ReadString(data, p + 4, s);
    NameParts(data, p, s, |s|, p + StringLen(s));
  }

  lemma NameParts(data: seq<Byte>, p: nat, s: Text, n: int, q: nat)
    requires GetInt(data, p) == Got(n, p + 4) && n >= 0 && GetMany(Units(data), p + 4, n) == Got(s, q)
    ensures GetName(data, p) == Got(Dotted(s), q)
  {
  }

  ghost predicate TableAt(data: seq<Byte>, p: nat, table: seq<Text>) { ListAt(StringAt, StringLen, data, p, table) }

  function TableLen(table: seq<Text>): nat { Offset(StringLen, table, |table|) }

  lemma ReadTable(data: seq<Byte>, p: nat, table: seq<Text>)
    requires TableAt(data, p, table)
    ensures GetMany(Strings(data), p, |table|) == Got(Mapped(Dotted, table), p + TableLen(table))
  {
    forall q: nat, s: Text | s in table && StringAt(data, q, s)
      ensures Strings(data)(q) == Got(Dotted(s), q + StringLen(s))
    {
      ReadName(data, q, s);
    }
    ListRead(Strings(data), StringAt, StringLen, Dotted, data, table, p);
  }

  // -------------------------------------------------------------------- frames

  predicate FrameSized(f: Frame) {
    f.classIndex < 0x1_0000 && f.methodIndex < 0x1_0000 && f.fileIndex < 0x1_0000 && -0x8000 <= f.line < 0x8000
  }

  /** A stack frame, whose first eight bytes are its fields. */
  predicate FrameAt(data: seq<Byte>, p: nat, f: Frame, frameLen: nat) {
    && FrameSized(f) && p + frameLen <= |data|
    && Holds(data, p, Short(f.classIndex)) && Holds(data, p + 2, Short(f.methodIndex))
    && Holds(data, p + 4, Short(f.fileIndex)) && Holds(data, p + 6, Short(Unsigned(f.line, 0x8000)))
  }

  function NameAt(table: seq<Text>, i: nat): Text { if i < |table| then table[i] else [] }

  predicate FrameFits(f: Frame, names: Names) {
    FrameSized(f) && f.classIndex < |names.classes| && f.methodIndex < |names.methods| && f.fileIndex < |names.files|
  }

  function ElementOf(f: Frame, names: Names): Element {
    Element(NameAt(names.classes, f.classIndex), NameAt(names.methods, f.methodIndex), NameAt(names.files, f.fileIndex), f.line)
  }

  /** A frame is read right, and the reading goes on at the next frame exactly if frames
      are eight bytes long: the loop that skips the rest leaves out one byte. */
  lemma ReadFrame(data: seq<Byte>, p: nat, f: Frame, frameLen: nat, names: Names)
    requires 8 <= frameLen && FrameAt(data, p, f, frameLen) && FrameFits(f, names)
    ensures GetFrame(data, p, frameLen, names).Got?
    ensures GetFrame(data, p, frameLen, names).value == ElementOf(f, names)
    ensures GetFrame(data, p, frameLen, names).next == p + frameLen <==> frameLen == 8
  {
    ReadShort(data, p, f.classIndex);
    ReadShort(data, p + 2, f.methodIndex);
    ReadShort(data, p + 4, f.fileIndex);
    ReadSigned(data, p + 6, f.line);
  }

  function FrameFormat(frameLen: nat): At<Frame> { (data, p: nat, f) => FrameAt(data, p, f, frameLen) }

  function FrameLen(frameLen: nat): Frame -> nat { _ => frameLen }

  function ElementFor(names: Names): Frame -> Element { f => ElementOf(f, names) }

  function StackLen(stack: seq<Frame>, frameLen: nat): nat { Offset(FrameLen(frameLen), stack, |stack|) }

  predicate StackFits(stack: seq<Frame>, names: Names) { |stack| < 0x100 && forall f :: f in stack ==> FrameFits(f, names) }

  /** Frames need eight bytes each, unless there are none. */
  predicate Stepwise(stack: seq<Frame>, frameLen: nat) { frameLen == 8 || stack == [] }

  lemma ReadStack(data: seq<Byte>, p: nat, stack: seq<Frame>, frameLen: nat, names: Names)
    requires ListAt(FrameFormat(frameLen), FrameLen(frameLen), data, p, stack)
    requires StackFits(stack, names) && Stepwise(stack, frameLen)
    ensures GetMany(Frames(data, frameLen, names), p, |stack|)
         == Got(Mapped(ElementFor(names), stack), p + StackLen(stack, frameLen))
  {
    forall q: nat, f | f in stack && FrameFormat(frameLen)(data, q, f)
      ensures Frames(data, frameLen, names)(q) == Got(ElementFor(names)(f), q + FrameLen(frameLen)(f))
    {
      ReadFrame(data, q, f, frameLen, names);
    }
    ListRead(Frames(data, frameLen, names), FrameFormat(frameLen), FrameLen(frameLen), ElementFor(names), data, stack, p);
  }

  // ------------------------------------------------------------------- entries

  predicate EntrySized(e: Entry) {
    -0x8000_0000 <= e.size < 0x8000_0000 && e.threadId < 0x1_0000 && e.classIndex < 0x1_0000 && |e.stack| < 0x100
  }

  /** The nine bytes of fields at the start of an entry. */
  predicate HeadAt(data: seq<Byte>, p: nat, e: Entry, entryLen: nat) {
    && EntrySized(e) && p + entryLen <= |data|
    && Holds(data, p, Int(e.size)) && Holds(data, p + 4, Short(e.threadId)) && Holds(data, p + 6, Short(e.classIndex))
    && Holds(data, p + 8, [|e.stack|])
  }

  ghost predicate EntryAt(data: seq<Byte>, p: nat, e: Entry, entryLen: nat, frameLen: nat) {
    HeadAt(data, p, e, entryLen) && ListAt(FrameFormat(frameLen), FrameLen(frameLen), data, p + entryLen, e.stack)
  }

  predicate EntryFits(e: Entry, names: Names) {
    EntrySized(e) && e.classIndex < |names.classes| && StackFits(e.stack, names)
  }

  function InfoOf(e: Entry, names: Names): Info
    requires EntrySized(e)
  {
    Info(NameAt(names.classes, e.classIndex), e.size, Signed16(e.threadId), Mapped(ElementFor(names), e.stack))
  }

  lemma ReadHead(data: seq<Byte>, p: nat, e: Entry, entryLen: nat)
    requires 9 <= entryLen && HeadAt(data, p, e, entryLen)
    ensures GetHead(data, p, entryLen) == Got(Head(e.size, e.threadId, e.classIndex, |e.stack|), p + entryLen)
  {
    ReadInt(data, p, e.size);
    ReadShort(data, p + 4, e.threadId);
    ReadShort(data, p + 6, e.classIndex);
    assert data[p + 8 + 0] == [|e.stack|][0];
  }

  lemma ReadEntry(data: seq<Byte>, p: nat, e: Entry, entryLen: nat, frameLen: nat, names: Names)
    requires 9 <= entryLen && EntryAt(data, p, e, entryLen, frameLen) && EntryFits(e, names) && Stepwise(e.stack, frameLen)
    ensures GetEntry(data, p, entryLen, frameLen, names)
         == Got(InfoOf(e, names), p + entryLen + StackLen(e.stack, frameLen))
  {
    ReadHead(data, p, e, entryLen);
    ReadStack(data, p + entryLen, e.stack, frameLen, names);
  }

  ghost function EntryFormat(entryLen: nat, frameLen: nat): At<Entry> {
    (data, p: nat, e) => EntryAt(data, p, e, entryLen, frameLen)
  }

  function EntryLen(entryLen: nat, frameLen: nat): Entry -> nat { (e: Entry) => entryLen + StackLen(e.stack, frameLen) }

  function InfoFor(names: Names): Entry -> Info {
    (e: Entry) => if EntrySized(e) then InfoOf(e, names) else Info([], 0, 0, [])
  }

  predicate EntriesFit(entries: seq<Entry>, frameLen: nat, names: Names) {
    forall e :: e in entries ==> EntryFits(e, names) && Stepwise(e.stack, frameLen)
  }

  lemma ReadEntries(data: seq<Byte>, p: nat, entries: seq<Entry>, entryLen: nat, frameLen: nat, names: Names)
    requires 9 <= entryLen && EntriesFit(entries, frameLen, names)
    requires ListAt(EntryFormat(entryLen, frameLen), EntryLen(entryLen, frameLen), data, p, entries)
    ensures GetMany(Entries(data, entryLen, frameLen, names), p, |entries|)
         == Got(Mapped(InfoFor(names), entries), p + Offset(EntryLen(entryLen, frameLen), entries, |entries|))
  {
    forall q: nat, e | e in entries && EntryFormat(entryLen, frameLen)(data, q, e)
      ensures Entries(data, entryLen, frameLen, names)(q) == Got(InfoFor(names)(e), q + EntryLen(entryLen, frameLen)(e))
    {
      ReadEntry(data, q, e, entryLen, frameLen, names);
    }
    ListRead(Entries(data, entryLen, frameLen, names), EntryFormat(entryLen, frameLen), EntryLen(entryLen, frameLen),
             InfoFor(names), data, entries, p);
  }

  // ------------------------------------------------------------------ messages

  function NamesOf(m: Message): Names { Names(Mapped(Dotted, m.classes), Mapped(Dotted, m.methods), Mapped(Dotted, m.files)) }

  /** Everything has a place in its field, the indexes are in range, and the lengths cover
      the documented fields. */
  predicate MessageFits(m: Message) {
    && m.messageLen < 0x100 && 9 <= m.entryLen < 0x100 && 8 <= m.frameLen < 0x100 && m.strings < 0x8000_0000
    && |m.entries| < 0x1_0000 && |m.classes| < 0x1_0000 && |m.methods| < 0x1_0000 && |m.files| < 0x1_0000
    && forall e :: e in m.entries ==> EntryFits(e, NamesOf(m))
  }

  predicate HeaderAt(data: seq<Byte>, m: Message)
    requires MessageFits(m)
  {
    && Holds(data, 0, [m.messageLen, m.entryLen, m.frameLen]) && Holds(data, 3, Short(|m.entries|))
    && Holds(data, 5, Int(m.strings)) && Holds(data, 9, Short(|m.classes|)) && Holds(data, 11, Short(|m.methods|))
    && Holds(data, 13, Short(|m.files|))
  }

  /** Three tables one behind the other. */
  ghost predicate TablesAt(at: At<seq<Text>>, len: seq<Text> -> nat, data: seq<Byte>, p: nat, m: Message) {
    && at(data, p, m.classes) && at(data, p + len(m.classes), m.methods)
    && at(data, p + len(m.classes) + len(m.methods), m.files)
  }

  /** The buffer holds the message, as the format is documented. */
  ghost predicate MessageAt(data: seq<Byte>, m: Message)
    requires MessageFits(m)
  {
    && HeaderAt(data, m) && m.messageLen <= |data| && m.strings <= |data| && TablesAt(TableAt, TableLen, data, m.strings, m)
    && ListAt(EntryFormat(m.entryLen, m.frameLen), EntryLen(m.entryLen, m.frameLen), data, m.messageLen, m.entries)
  }

  function HeaderOf(m: Message): Header {
    Header(m.messageLen, m.entryLen, m.frameLen, |m.entries|, m.strings, |m.classes|, |m.methods|, |m.files|)
  }

  lemma ReadHeader(data: seq<Byte>, m: Message)
    requires MessageFits(m) && HeaderAt(data, m)
    ensures GetHeader(data, 0) == Some(HeaderOf(m))
  {
    var s := [m.messageLen, m.entryLen, m.frameLen];
    assert data[0 + 0] == s[0] && data[0 + 1] == s[1] && data[0 + 2] == s[2];
    ReadShort(data, 3, |m.entries|);
    ReadInt(data, 5, m.strings);
    ReadShort(data, 9, |m.classes|);
    ReadShort(data, 11, |m.methods|);
    ReadShort(data, 13, |m.files|);
  }

  /** The reader of one string reads tables. */
  ghost predicate TableReader(read: nat -> Read<Text>, at: At<seq<Text>>, len: seq<Text> -> nat, value: Text -> Text,
                              data: seq<Byte>) {
    forall p: nat, table :: at(data, p, table) ==> GetMany(read, p, |table|) == Got(Mapped(value, table), p + len(table))
  }

  lemma StringsReadTables(data: seq<Byte>)
    ensures TableReader(Strings(data), TableAt, TableLen, Dotted, data)
  {
    forall p: nat, table | TableAt(data, p, table)
      ensures GetMany(Strings(data), p, |table|) == Got(Mapped(Dotted, table), p + TableLen(table))
    {
      ReadTable(data, p, table);
    }
  }

  lemma ReadTables(read: nat -> Read<Text>, at: At<seq<Text>>, len: seq<Text> -> nat, value: Text -> Text,
                   data: seq<Byte>, p: nat, m: Message) returns (q: nat, r: nat, s: nat)
    requires TableReader(read, at, len, value, data) && TablesAt(at, len, data, p, m)
    ensures GetMany(read, p, |m.classes|) == Got(Mapped(value, m.classes), q)
    ensures GetMany(read, q, |m.methods|) == Got(Mapped(value, m.methods), r)
    ensures GetMany(read, r, |m.files|) == Got(Mapped(value, m.files), s)
  {
    q := p + len(m.classes);
    r := q + len(m.methods);
    s := r + len(m.files);
  }

  lemma ReadNames(data: seq<Byte>, m: Message)
    requires TablesAt(TableAt, TableLen, data, m.strings, m) && m.strings <= |data|
    ensures GetNames(data, HeaderOf(m)) == Some(NamesOf(m))
  {
    StringsReadTables(data);
    var names := NamesOf(m);
    var q, r, s := ReadTables(Strings(data), TableAt, TableLen, Dotted, data, m.strings, m);
    NamesParts(data, HeaderOf(m), names.classes, names.methods, names.files, q, r, s);
  }

  lemma NamesParts(data: seq<Byte>, h: Header, a: seq<Text>, b: seq<Text>, c: seq<Text>, p: nat, q: nat, r: nat)
    requires 0 <= h.strings <= |data| && GetMany(Strings(data), h.strings, h.classes) == Got(a, p)
    requires GetMany(Strings(data), p, h.methods) == Got(b, q) && GetMany(Strings(data), q, h.files) == Got(c, r)
    ensures GetNames(data, h) == Some(Names(a, b, c))
  {
  }

  /** What a message stands for. */
  function Infos(m: Message): seq<Info> { Mapped(InfoFor(NamesOf(m)), m.entries) }

  /** A message in the documented format is read as the entries it holds. */
  lemma ReadsBack(data: seq<Byte>, m: Message)
    requires MessageFits(m) && MessageAt(data, m)
    requires forall e :: e in m.entries ==> Stepwise(e.stack, m.frameLen)
    ensures GetMessage(data, 0) == Some(Infos(m))
  {
    ReadHeader(data, m);
    ReadNames(data, m);
    ReadEntries(data, m.messageLen, m.entries, m.entryLen, m.frameLen, NamesOf(m));
  }
}
