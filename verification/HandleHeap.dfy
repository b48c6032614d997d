/** HandleHeap.java as it is written: a buffer with a position, and loops that fill arrays. */
module HandleHeap {
  import opened HeapMessage
  import opened HeapRoundTrip
  import opened HeapSort

  /** A method did what the reading function says; after an exception nothing is known of
      the position. */
  ghost predicate Did<T>(spec: Read<T>, r: Option<T>, position: nat) {
    match spec
    case Fail => r.None?
    case Got(v, q) => r == Some(v) && position == q
  }

  class ByteBuffer {
    const data: seq<Byte>
    var position: nat

    constructor (data: seq<Byte>, position: nat)
      ensures this.data == data && this.position == position
    {
      this.data, this.position := data, position;
    }

    /** get() & 0xff */
    method Get() returns (r: Option<nat>)
      modifies this
      ensures Did(HeapMessage.Get(data, old(position)), r, position)
    {
      if position + 1 > |data| {
        return None;
      }
      position := position + 1;
      return Some(data[position - 1]);
    }

    /** getChar(), and getShort() & 0xffff */
    method GetShort() returns (r: Option<Unit>)
      modifies this
      ensures Did(HeapMessage.GetShort(data, old(position)), r, position)
    {
      if position + 2 > |data| {
        return None;
      }
      position := position + 2;
      return Some((data[position - 2] as int) * 0x100 + data[position - 1] as int);
    }

    method GetInt() returns (r: Option<int>)
      modifies this
      ensures Did(HeapMessage.GetInt(data, old(position)), r, position)
    {
      if position + 4 > |data| {
        return None;
      }
      position := position + 4;
      return Some(Signed32((data[position - 4] as int) * 0x100_0000 + (data[position - 3] as int) * 0x1_0000
                           + (data[position - 2] as int) * 0x100 + data[position - 1] as int));
    }

    /** position(newPosition) */
    method SetPosition(p: int) returns (r: Option<()>)
      modifies this
      ensures if 0 <= p <= |data| then r.Some? && position == p else r.None?
    {
      if p < 0 || p > |data| {
        return None;
      }
      position := p;
      return Some(());
    }

    /** for (int skip = from; skip < length; skip++) get(); */
    method Gobble(from: nat, length: nat) returns (r: Option<()>)
      modifies this
      ensures Did(Skip(data, old(position), Over(from, length)), r, position)
    {
      var skip := from;
      while skip < length
        invariant skip <= length || skip == from
        invariant position == old(position) + (skip - from) && (skip > from ==> position <= |data|)
      {
        var _ :- Get();
        skip := skip + 1;
      }
      return Some(());
    }
  }

  lemma {:induction false} ManyFails<T>(read: nat -> Read<T>, p: nat, i: nat, n: nat)
    requires i < n && GetMany(read, p, i).Got? && read(GetMany(read, p, i).next).Fail?
    ensures GetMany(read, p, n).Fail?
    decreases n
  {
    if i < n - 1 {
      ManyFails(read, p, i, n - 1);
    }
  }

  lemma ManyNext<T>(read: nat -> Read<T>, p: nat, i: nat, s: seq<T>, q: nat, v: T, r: nat)
    requires GetMany(read, p, i) == Got(s, q) && read(q) == Got(v, r)
    ensures GetMany(read, p, i + 1) == Got(s + [v], r)
  {
  }

  method GetString(buf: ByteBuffer, len: nat) returns (r: Option<Text>)
    modifies buf
    ensures Did(GetMany(Units(buf.data), old(buf.position), len), r, buf.position)
  {
    var data := new Unit[len](_ => 0);
    ghost var p := buf.position;
    for i := 0 to len
      invariant GetMany(Units(buf.data), p, i) == Got(data[..i], buf.position)
    {
      ghost var q := buf.position;
      var u := buf.GetShort();
      if u.None? {
        ManyFails(Units(buf.data), p, i, len);
        return None;
      }
      ManyNext(Units(buf.data), p, i, data[..i], q, u.value, buf.position);
      data[i] := u.value;
      assert data[..i + 1] == data[..i] + [u.value];
    }
    assert data[..len] == data[..];
    return Some(data[..]);
  }

  function Brackets(n: nat): Text { if n == 0 then [] else [OPEN, CLOSE] + Brackets(n - 1) }

  lemma {:induction false} BracketsLast(n: nat)
    ensures Brackets(n + 1) == Brackets(n) + [OPEN, CLOSE]
  {
    if n > 0 {
      BracketsLast(n - 1);
    }
  }

  method DescriptorToDot(descriptor: Text) returns (str: Text)
    ensures str == Dotted(descriptor)
  {
    str := descriptor;
    var arrays: nat := 0;
    while str != [] && str[0] == OPEN
      invariant Dotted(descriptor) == Dotted(str) + Brackets(arrays)
      decreases |str|
    {
      assert Dotted(str) + Brackets(arrays) == Dotted(str[1..]) + ([OPEN, CLOSE] + Brackets(arrays));
      str := str[1..];
      arrays := arrays + 1;
    }
    ghost var name := ElementName(str);
    if IsObject(str) {
      str := Replaced(str[1..|str| - 1]);
    } else if |str| == 1 && Basic(str[0]).Some? {
      str := Basic(str[0]).value;
    }
    for a := 0 to arrays
      invariant str == name + Brackets(a)
    {
      BracketsLast(a);
      str := str + [OPEN, CLOSE];
    }
  }

  method ReadName(buf: ByteBuffer) returns (r: Option<Text>)
    modifies buf
    ensures Did(GetName(buf.data, old(buf.position)), r, buf.position)
  {
    var nameLen :- buf.GetInt();
    if nameLen < 0 {
      return None;
    }
    var descriptor :- GetString(buf, nameLen);
    var name := DescriptorToDot(descriptor);
    return Some(name);
  }

  /** readStringTable */
  method ReadStringTable(buf: ByteBuffer, strings: array<Text>) returns (r: Option<()>)
    modifies buf, strings
    ensures match GetMany(Strings(buf.data), old(buf.position), strings.Length)
            case Fail => r.None?
            case Got(table, q) => r.Some? && strings[..] == table && buf.position == q
  {
    ghost var p := buf.position;
    var count := strings.Length;
    for i := 0 to count
      invariant GetMany(Strings(buf.data), p, i) == Got(strings[..i], buf.position)
    {
      ghost var q := buf.position;
      var name := ReadName(buf);
      if name.None? {
        ManyFails(Strings(buf.data), p, i, count);
        return None;
      }
      ManyNext(Strings(buf.data), p, i, strings[..i], q, name.value, buf.position);
      strings[i] := name.value;
      assert strings[..i + 1] == strings[..i] + [name.value];
    }
    assert strings[..count] == strings[..];
    return Some(());
  }

  method ReadFrame(buf: ByteBuffer, frameLen: nat, names: Names) returns (r: Option<Element>)
    modifies buf
    ensures Did(GetFrame(buf.data, old(buf.position), frameLen, names), r, buf.position)
  {
    var c :- buf.GetShort();
    var m :- buf.GetShort();
    var f :- buf.GetShort();
    var line :- buf.GetShort();
    if c >= |names.classes| || m >= |names.methods| || f >= |names.files| {
      return None;
    }
    var _ :- buf.Gobble(9, frameLen);
    return Some(Element(names.classes[c], names.methods[m], names.files[f], Signed16(line)));
  }

  method ReadStack(buf: ByteBuffer, frameLen: nat, names: Names, depth: nat) returns (r: Option<seq<Element>>)
    modifies buf
    ensures Did(GetMany(Frames(buf.data, frameLen, names), old(buf.position), depth), r, buf.position)
  {
    var stack := new Element[depth](_ => Element([], [], [], 0));
    ghost var p, read := buf.position, Frames(buf.data, frameLen, names);
    for i := 0 to depth
      invariant GetMany(read, p, i) == Got(stack[..i], buf.position)
    {
      ghost var q := buf.position;
      var frame := ReadFrame(buf, frameLen, names);
      if frame.None? {
        ManyFails(read, p, i, depth);
        return None;
      }
      ManyNext(read, p, i, stack[..i], q, frame.value, buf.position);
      stack[i] := frame.value;
      assert stack[..i + 1] == stack[..i] + [frame.value];
    }
    assert stack[..depth] == stack[..];
    return Some(stack[..]);
  }

  method ReadHead(buf: ByteBuffer, entryLen: nat) returns (r: Option<Head>)
    modifies buf
    ensures Did(GetHead(buf.data, old(buf.position), entryLen), r, buf.position)
  {
    var totalSize :- buf.GetInt();
    var threadId :- buf.GetShort();
    var classNameIndex :- buf.GetShort();
    var stackDepth :- buf.Get();
    var _ :- buf.Gobble(9, entryLen);
    return Some(Head(totalSize, threadId, classNameIndex, stackDepth));
  }

  method ReadEntry(buf: ByteBuffer, entryLen: nat, frameLen: nat, names: Names) returns (r: Option<Info>)
    modifies buf
    ensures Did(GetEntry(buf.data, old(buf.position), entryLen, frameLen, names), r, buf.position)
  {
    var head :- ReadHead(buf, entryLen);
    var stack :- ReadStack(buf, frameLen, names, head.depth);
    if head.classIndex >= |names.classes| {
      return None;
    }
    return Some(Info(names.classes[head.classIndex], head.size, Signed16(head.threadId), stack));
  }

  method ReadEntries(buf: ByteBuffer, entryLen: nat, frameLen: nat, names: Names, n: nat) returns (r: Option<seq<Info>>)
    modifies buf
    ensures Did(GetMany(Entries(buf.data, entryLen, frameLen, names), old(buf.position), n), r, buf.position)
  {
    var list: seq<Info> := [];
    ghost var p, read := buf.position, Entries(buf.data, entryLen, frameLen, names);
    for i := 0 to n
      invariant GetMany(read, p, i) == Got(list, buf.position)
    {
      ghost var q := buf.position;
      var entry := ReadEntry(buf, entryLen, frameLen, names);
      if entry.None? {
        ManyFails(read, p, i, n);
        return None;
      }
      ManyNext(read, p, i, list, q, entry.value, buf.position);
      list := list + [entry.value];
    }
    return Some(list);
  }

  method ReadHeader(buf: ByteBuffer) returns (r: Option<Header>)
    modifies buf
    ensures r == GetHeader(buf.data, old(buf.position))
  {
    var messageLen :- buf.Get();
    var entryLen :- buf.Get();
    var frameLen :- buf.Get();
    var numEntries :- buf.GetShort();
    var offsetToStrings :- buf.GetInt();
    var numClassNames :- buf.GetShort();
    var numMethodNames :- buf.GetShort();
    var numFileNames :- buf.GetShort();
    return Some(Header(messageLen, entryLen, frameLen, numEntries, offsetToStrings,
                       numClassNames, numMethodNames, numFileNames));
  }

  method ReadNames(buf: ByteBuffer, h: Header) returns (r: Option<Names>)
    modifies buf
    ensures r == GetNames(buf.data, h)
  {
    var _ :- buf.SetPosition(h.strings);
    var classNames := new Text[h.classes](_ => []);
    var methodNames := new Text[h.methods](_ => []);
    var fileNames := new Text[h.files](_ => []);
    var _ :- ReadStringTable(buf, classNames);
    var _ :- ReadStringTable(buf, methodNames);
    var _ :- ReadStringTable(buf, fileNames);
    return Some(Names(classNames[..], methodNames[..], fileNames[..]));
  }

  /** handleRecentAlloc */
  method HandleRecentAlloc(buf: ByteBuffer) returns (r: Option<seq<Info>>)
    modifies buf
    ensures match GetMessage(buf.data, old(buf.position))
            case None => r.None?
            case Some(list) => r == Some(Sorted(list))
  {
    var h :- ReadHeader(buf);
    var names :- ReadNames(buf, h);
    var _ :- buf.SetPosition(h.messageLen);
    var list :- ReadEntries(buf, h.entryLen, h.frameLen, names, h.entries);
    return Some(Sorted(list));
  }

  /** From a message in the documented format comes a list of exactly its entries, biggest
      first and otherwise in their order, when no size is negative. */
  lemma Handled(data: seq<Byte>, m: Message)
    requires MessageFits(m) && MessageAt(data, m) && forall e :: e in m.entries ==> Stepwise(e.stack, m.frameLen)
    requires forall e :: e in m.entries ==> 0 <= e.size
    ensures GetMessage(data, 0) == Some(Infos(m)) && StablySorted(Infos(m), Sorted(Infos(m)))
  {
    ReadsBack(data, m);
    forall x | x in Infos(m)
      ensures 0 <= x.size < TWO_31
    {
      var i :| 0 <= i < |m.entries| && Infos(m)[i] == x;
      assert m.entries[i] in m.entries && EntryFits(m.entries[i], NamesOf(m));
    }
    PositiveComparable(Infos(m));
    SortedStable(Infos(m));
  }
}
