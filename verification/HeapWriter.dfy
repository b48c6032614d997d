/** A writer for the documented format, and the round trip through it. */
module HeapWriter {
  import opened HeapMessage
  import opened HeapFormat
  import opened HeapRoundTrip

  function Zeros(n: nat): (s: seq<Byte>)
    ensures |s| == n
  {
    seq(n, _ => 0)
  }

  /** A string that is too long has no encoding. */
  function StringBytes(s: Text): seq<Byte> {
    if |s| < 0x8000_0000 then Int(|s|) + Chain(UnitBytes, s, |s|) else []
  }

  function UnitBytes(u: Unit): seq<Byte> { Short(u) }

  predicate TableFits(table: seq<Text>) { forall s :: s in table ==> |s| < 0x8000_0000 }

  function TableBytes(table: seq<Text>): seq<Byte> { Chain(StringBytes, table, |table|) }

  function FrameBytes(f: Frame, frameLen: nat): (s: seq<Byte>)
    requires FrameSized(f) && 8 <= frameLen
    ensures |s| == frameLen
  {
    Short(f.classIndex) + Short(f.methodIndex) + Short(f.fileIndex) + Short(Unsigned(f.line, 0x8000)) + Zeros(frameLen - 8)
  }

  function FrameWriter(frameLen: nat): Frame -> seq<Byte>
    requires 8 <= frameLen
  {
    (f: Frame) => if FrameSized(f) then FrameBytes(f, frameLen) else []
  }

  function HeadBytes(e: Entry, entryLen: nat): (s: seq<Byte>)
    requires EntrySized(e) && 9 <= entryLen
    ensures |s| == entryLen
  {
    Int(e.size) + Short(e.threadId) + Short(e.classIndex) + [|e.stack|] + Zeros(entryLen - 9)
  }

  function EntryWriter(entryLen: nat, frameLen: nat): Entry -> seq<Byte>
    requires 9 <= entryLen && 8 <= frameLen
  {
    (e: Entry) =>
      if EntrySized(e) then HeadBytes(e, entryLen) + Chain(FrameWriter(frameLen), e.stack, |e.stack|) else []
  }

  function HeaderBytes(m: Message): (s: seq<Byte>)
    requires MessageFits(m) && 15 <= m.messageLen
    ensures |s| == m.messageLen
  {
    [m.messageLen, m.entryLen, m.frameLen] + Short(|m.entries|) + Int(m.strings)
    + Short(|m.classes|) + Short(|m.methods|) + Short(|m.files|) + Zeros(m.messageLen - 15)
  }

  function EntriesBytes(m: Message): seq<Byte>
    requires MessageFits(m)
  {
    Chain(EntryWriter(m.entryLen, m.frameLen), m.entries, |m.entries|)
  }

  function Serialize(m: Message): seq<Byte>
    requires MessageFits(m) && 15 <= m.messageLen
  {
    HeaderBytes(m) + EntriesBytes(m) + TableBytes(m.classes) + TableBytes(m.methods) + TableBytes(m.files)
  }

  // ------------------------------------------------------------------- strings

  lemma UnitsWritten(s: Text)
    ensures Writes(UnitBytes, UnitAt, UnitLen, s)
  {
  }

  lemma StringWritten(data: seq<Byte>, p: nat, s: Text)
    requires |s| < 0x8000_0000 && Holds(data, p, StringBytes(s))
    ensures StringAt(data, p, s)
  {
    Parts(data, p, Int(|s|), Chain(UnitBytes, s, |s|));
    UnitsWritten(s);
    ListWritten(UnitBytes, UnitAt, UnitLen, data, p + 4, s);
  }

  lemma StringsWritten(table: seq<Text>)
    requires TableFits(table)
    ensures Writes(StringBytes, StringAt, StringLen, table)
  {
    forall s | s in table
      ensures |StringBytes(s)| == StringLen(s)
    {
      UnitsWritten(s);
      ChainLength(UnitBytes, UnitAt, UnitLen, s, |s|);
    }
    forall data: seq<Byte>, p: nat, s | s in table && Holds(data, p, StringBytes(s))
      ensures StringAt(data, p, s)
    {
      StringWritten(data, p, s);
    }
  }

  lemma TableWritten(data: seq<Byte>, p: nat, table: seq<Text>)
    requires TableFits(table) && Holds(data, p, TableBytes(table))
    ensures TableAt(data, p, table) && |TableBytes(table)| == TableLen(table)
  {
    StringsWritten(table);
    ListWritten(StringBytes, StringAt, StringLen, data, p, table);
  }

  // ------------------------------------------------------------------- entries

  lemma FrameWritten(data: seq<Byte>, p: nat, f: Frame, frameLen: nat)
    requires FrameSized(f) && 8 <= frameLen && Holds(data, p, FrameBytes(f, frameLen))
    ensures FrameAt(data, p, f, frameLen)
  {
    var c, m, s, l := Short(f.classIndex), Short(f.methodIndex), Short(f.fileIndex), Short(Unsigned(f.line, 0x8000));
    Parts(data, p, c + m + s + l, Zeros(frameLen - 8));
    Parts(data, p, c + m + s, l);
    Parts(data, p, c + m, s);
    Parts(data, p, c, m);
  }

  predicate AllSized(stack: seq<Frame>) { forall f :: f in stack ==> FrameSized(f) }

  lemma FramesWritten(stack: seq<Frame>, frameLen: nat)
    requires 8 <= frameLen && AllSized(stack)
    ensures Writes(FrameWriter(frameLen), FrameFormat(frameLen), FrameLen(frameLen), stack)
  {
    forall data: seq<Byte>, p: nat, f | f in stack && Holds(data, p, FrameWriter(frameLen)(f))
      ensures FrameFormat(frameLen)(data, p, f)
    {
      FrameWritten(data, p, f, frameLen);
    }
  }

  lemma HeadWritten(data: seq<Byte>, p: nat, e: Entry, entryLen: nat)
    requires EntrySized(e) && 9 <= entryLen && Holds(data, p, HeadBytes(e, entryLen))
    ensures HeadAt(data, p, e, entryLen)
  {
    var s, t, c, d := Int(e.size), Short(e.threadId), Short(e.classIndex), [|e.stack|];
    Parts(data, p, s + t + c + d, Zeros(entryLen - 9));
    Parts(data, p, s + t + c, d);
    Parts(data, p, s + t, c);
    Parts(data, p, s, t);
  }

  predicate EntriesSized(entries: seq<Entry>) { forall e :: e in entries ==> EntrySized(e) && AllSized(e.stack) }

  lemma StackWritten(data: seq<Byte>, p: nat, stack: seq<Frame>, frameLen: nat)
    requires 8 <= frameLen && AllSized(stack) && Holds(data, p, Chain(FrameWriter(frameLen), stack, |stack|))
    ensures ListAt(FrameFormat(frameLen), FrameLen(frameLen), data, p, stack)
  {
    FramesWritten(stack, frameLen);
    ListWritten(FrameWriter(frameLen), FrameFormat(frameLen), FrameLen(frameLen), data, p, stack);
  }

  lemma HeadAndStack(data: seq<Byte>, p: nat, e: Entry, entryLen: nat, frameLen: nat)
    requires EntrySized(e) && 9 <= entryLen && 8 <= frameLen && Holds(data, p, EntryWriter(entryLen, frameLen)(e))
    ensures Holds(data, p, HeadBytes(e, entryLen))
    ensures Holds(data, p + entryLen, Chain(FrameWriter(frameLen), e.stack, |e.stack|))
  {
    Parts(data, p, HeadBytes(e, entryLen), Chain(FrameWriter(frameLen), e.stack, |e.stack|));
  }

  lemma EntryWritten(data: seq<Byte>, p: nat, e: Entry, entryLen: nat, frameLen: nat)
    requires EntrySized(e) && AllSized(e.stack) && 9 <= entryLen && 8 <= frameLen
    requires Holds(data, p, EntryWriter(entryLen, frameLen)(e))
    ensures EntryAt(data, p, e, entryLen, frameLen)
  {
    HeadAndStack(data, p, e, entryLen, frameLen);
    HeadWritten(data, p, e, entryLen);
    StackWritten(data, p + entryLen, e.stack, frameLen);
    EntryIs(data, p, e, entryLen, frameLen);
  }

  lemma EntryIs(data: seq<Byte>, p: nat, e: Entry, entryLen: nat, frameLen: nat)
    requires HeadAt(data, p, e, entryLen)
    requires ListAt(FrameFormat(frameLen), FrameLen(frameLen), data, p + entryLen, e.stack)
    ensures EntryAt(data, p, e, entryLen, frameLen)
  {
  }

  lemma EntriesWritten(entries: seq<Entry>, entryLen: nat, frameLen: nat)
    requires 9 <= entryLen && 8 <= frameLen && EntriesSized(entries)
    ensures Writes(EntryWriter(entryLen, frameLen), EntryFormat(entryLen, frameLen), EntryLen(entryLen, frameLen), entries)
  {
    forall e | e in entries
      ensures |EntryWriter(entryLen, frameLen)(e)| == EntryLen(entryLen, frameLen)(e)
    {
      FramesWritten(e.stack, frameLen);
      ChainLength(FrameWriter(frameLen), FrameFormat(frameLen), FrameLen(frameLen), e.stack, |e.stack|);
    }
    forall data: seq<Byte>, p: nat, e | e in entries && Holds(data, p, EntryWriter(entryLen, frameLen)(e))
      ensures EntryFormat(entryLen, frameLen)(data, p, e)
    {
      EntryWritten(data, p, e, entryLen, frameLen);
    }
  }

  // ------------------------------------------------------------------ messages

  lemma HeaderWritten(data: seq<Byte>, m: Message)
    requires MessageFits(m) && 15 <= m.messageLen && Holds(data, 0, HeaderBytes(m))
    ensures HeaderAt(data, m)
  {
    var a, n, s := [m.messageLen, m.entryLen, m.frameLen], Short(|m.entries|), Int(m.strings);
    var c, k, f := Short(|m.classes|), Short(|m.methods|), Short(|m.files|);
    Parts(data, 0, a + n + s + c + k + f, Zeros(m.messageLen - 15));
    Parts(data, 0, a + n + s + c + k, f);
    Parts(data, 0, a + n + s + c, k);
    Parts(data, 0, a + n + s, c);
    Parts(data, 0, a + n, s);
    Parts(data, 0, a, n);
  }

  lemma SizedEntries(m: Message)
    requires MessageFits(m)
    ensures EntriesSized(m.entries)
  {
    forall e | e in m.entries
      ensures EntrySized(e) && AllSized(e.stack)
    {
      assert EntryFits(e, NamesOf(m));
    }
  }

  lemma ThreeParts(data: seq<Byte>, p: nat, a: seq<Byte>, b: seq<Byte>, c: seq<Byte>)
    requires Holds(data, p, a + b + c)
    ensures Holds(data, p, a) && Holds(data, p + |a|, b) && Holds(data, p + |a| + |b|, c)
  {
    Parts(data, p, a + b, c);
    Parts(data, p, a, b);
  }

  lemma TablesWritten(data: seq<Byte>, p: nat, m: Message)
    requires TableFits(m.classes) && TableFits(m.methods) && TableFits(m.files)
    requires Holds(data, p, TableBytes(m.classes) + TableBytes(m.methods) + TableBytes(m.files))
    ensures TablesAt(TableAt, TableLen, data, p, m)
  {
    ThreeParts(data, p, TableBytes(m.classes), TableBytes(m.methods), TableBytes(m.files));
    TableWritten(data, p, m.classes);
    TableWritten(data, p + TableLen(m.classes), m.methods);
    TableWritten(data, p + TableLen(m.classes) + TableLen(m.methods), m.files);
  }

  lemma Wholly(a: seq<Byte>, b: seq<Byte>, c: seq<Byte>, d: seq<Byte>, e: seq<Byte>)
    ensures var data := a + b + c + d + e; Holds(data, 0, a) && Holds(data, |a|, b) && Holds(data, |a| + |b|, c + d + e)
  {
    var data := a + b + c + d + e;
    assert data == a + b + (c + d + e);
    assert Holds(data, 0, data);
    ThreeParts(data, 0, a, b, c + d + e);
  }

  /** The message can be written: its strings are no longer than a length says, and their
      offset is where they are written, right behind the entries. */
  predicate Writable(m: Message) {
    && MessageFits(m) && 15 <= m.messageLen && TableFits(m.classes) && TableFits(m.methods) && TableFits(m.files)
    && m.strings == m.messageLen + Offset(EntryLen(m.entryLen, m.frameLen), m.entries, |m.entries|)
  }

  lemma Written(m: Message)
    requires Writable(m)
    ensures MessageAt(Serialize(m), m)
  {
    var data := Serialize(m);
    Wholly(HeaderBytes(m), EntriesBytes(m), TableBytes(m.classes), TableBytes(m.methods), TableBytes(m.files));
    HeaderWritten(data, m);
    SizedEntries(m);
    EntriesWritten(m.entries, m.entryLen, m.frameLen);
    ListWritten(EntryWriter(m.entryLen, m.frameLen), EntryFormat(m.entryLen, m.frameLen), EntryLen(m.entryLen, m.frameLen),
                data, m.messageLen, m.entries);
    TablesWritten(data, m.strings, m);
  }

  /** What is written is read back. */
  lemma RoundTrip(m: Message)
    requires Writable(m) && forall e :: e in m.entries ==> Stepwise(e.stack, m.frameLen)
    ensures GetMessage(Serialize(m), 0) == Some(Infos(m))
  {
    Written(m);
    ReadsBack(Serialize(m), m);
  }
}
