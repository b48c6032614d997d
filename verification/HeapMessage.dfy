/**
 The recent-allocations message: the records it carries and what HandleHeap.java
 reads out of a buffer.  Reading past the end, a negative length and an index out of
 range are exceptions, which end the reading.
 */
module HeapMessage {

  type Byte = b: nat | b < 0x100
  type Unit = u: nat | u < 0x1_0000       // a UTF-16 code unit
  type Text = seq<Unit>

  datatype Read<T> = Fail | Got(value: T, next: nat)

  /** None stands for an exception. */
  datatype Option<+T> = None | Some(value: T) {
    predicate IsFailure() { None? }

    function PropagateFailure<U>(): Option<U>
      requires None?
    {
      None
    }

    function Extract(): T
      requires Some?
    {
      value
    }
  }

  datatype Element = Element(declaringClass: Text, methodName: Text, fileName: Text, line: int)

  datatype Info = Info(allocatedClass: Text, size: int, threadId: int, stack: seq<Element>)

  datatype Names = Names(classes: seq<Text>, methods: seq<Text>, files: seq<Text>)

  // ------------------------------------------------------------------ ByteBuffer

  function Signed16(v: nat): int
    requires v < 0x1_0000
  {
    if v < 0x8000 then v else v - 0x1_0000
  }

  function Signed32(v: nat): int
    requires v < 0x1_0000_0000
  {
    if v < 0x8000_0000 then v else v - 0x1_0000_0000
  }

  function Get(data: seq<Byte>, p: nat): (r: Read<nat>)
    ensures r.Got? ==> r.value < 0x100
  {
    if p + 1 <= |data| then Got(data[p], p + 1) else Fail
  }

  /** getShort() & 0xffff and getChar() */
  function GetShort(data: seq<Byte>, p: nat): Read<Unit> {
    if p + 2 <= |data| then Got((data[p] as int) * 0x100 + data[p + 1] as int, p + 2) else Fail
  }

  function GetInt(data: seq<Byte>, p: nat): Read<int> {
    if p + 4 <= |data| then
      Got(Signed32((data[p] as int) * 0x100_0000 + (data[p + 1] as int) * 0x1_0000
                   + (data[p + 2] as int) * 0x100 + data[p + 3] as int), p + 4)
    else Fail
  }

  /** Gobbling up n bytes. */
  function Skip(data: seq<Byte>, p: nat, n: nat): Read<()> { if n == 0 || p + n <= |data| then Got((), p + n) else Fail }

  /** n values one behind the other. */
  function GetMany<T>(read: nat -> Read<T>, p: nat, n: nat): (r: Read<seq<T>>)
    ensures r.Got? ==> |r.value| == n
    decreases n
  {
    if n == 0 then Got([], p)
    else
      match GetMany(read, p, n - 1)
      case Fail => Fail
      case Got(s, q) =>
        match read(q)
        case Fail => Fail
        case Got(v, r) => Got(s + [v], r)
  }

  function Over(from: nat, length: nat): nat { if length > from then length - from else 0 }

  // ------------------------------------------------------------------- strings

  const L: Unit := 'L' as int
  const OPEN: Unit := '[' as int
  const CLOSE: Unit := ']' as int
  const SEMICOLON: Unit := ';' as int
  const SLASH: Unit := '/' as int
  const DOT: Unit := '.' as int

  function Letters(s: string): (t: Text)
    requires forall i :: 0 <= i < |s| ==> s[i] < 128 as char
    ensures |t| == |s| && forall i :: 0 <= i < |s| ==> t[i] == s[i] as int
  {
    seq(|s|, i requires 0 <= i < |s| => s[i] as int)
  }

  /** The basic types and their names. */
  function Basic(u: Unit): Option<Text> {
    if u == 'C' as int then Some(Letters("char"))
    else if u == 'B' as int then Some(Letters("byte"))
    else if u == 'Z' as int then Some(Letters("boolean"))
    else if u == 'S' as int then Some(Letters("short"))
    else if u == 'I' as int then Some(Letters("int"))
    else if u == 'J' as int then Some(Letters("long"))
    else if u == 'F' as int then Some(Letters("float"))
    else if u == 'D' as int then Some(Letters("double"))
    else None
  }

  function Replaced(s: Text): (r: Text)
    ensures |r| == |s| && forall i :: 0 <= i < |s| ==> r[i] == if s[i] == SLASH then DOT else s[i]
  {
    seq(|s|, i requires 0 <= i < |s| => if s[i] == SLASH then DOT else s[i])
  }

  predicate IsObject(s: Text) { |s| >= 2 && s[0] == L && s[|s| - 1] == SEMICOLON }

  function ElementName(s: Text): Text {
    if IsObject(s) then Replaced(s[1..|s| - 1])
    else if |s| == 1 && Basic(s[0]).Some? then Basic(s[0]).value
    else s
  }

  /** descriptorToDot */
  function Dotted(s: Text): Text
    decreases |s|
  {
    if s != [] && s[0] == OPEN then Dotted(s[1..]) + [OPEN, CLOSE] else ElementName(s)
  }

  function Units(data: seq<Byte>): nat -> Read<Unit> { (p: nat) => GetShort(data, p) }

  function GetName(data: seq<Byte>, p: nat): Read<Text> {
    match GetInt(data, p)
    case Fail => Fail
    case Got(n, q) =>
      if n < 0 then Fail
      else
        match GetMany(Units(data), q, n)      // getString
        case Fail => Fail
        case Got(s, r) => Got(Dotted(s), r)
  }

  function Strings(data: seq<Byte>): nat -> Read<Text> { (p: nat) => GetName(data, p) }

  // ------------------------------------------------------------------- entries

  function GetFrame(data: seq<Byte>, p: nat, frameLen: nat, names: Names): Read<Element> {
    match GetShort(data, p)
    case Fail => Fail
    case Got(c, p1) =>
      match GetShort(data, p1)
      case Fail => Fail
      case Got(m, p2) =>
        match GetShort(data, p2)
        case Fail => Fail
        case Got(f, p3) =>
          match GetShort(data, p3)
          case Fail => Fail
          case Got(line, p4) =>
            if c >= |names.classes| || m >= |names.methods| || f >= |names.files| then Fail
            else
              match Skip(data, p4, Over(9, frameLen))
              case Fail => Fail
              case Got(_, p5) => Got(Element(names.classes[c], names.methods[m], names.files[f], Signed16(line)), p5)
  }

  function Frames(data: seq<Byte>, frameLen: nat, names: Names): nat -> Read<Element> {
    (p: nat) => GetFrame(data, p, frameLen, names)
  }

  datatype Head = Head(size: int, threadId: nat, classIndex: nat, depth: nat)

  function GetHead(data: seq<Byte>, p: nat, entryLen: nat): (r: Read<Head>)
    ensures r.Got? ==> r.value.threadId < 0x1_0000 && r.value.depth < 0x100
  {
    match GetInt(data, p)
    case Fail => Fail
    case Got(size, p1) =>
      match GetShort(data, p1)
      case Fail => Fail
      case Got(t, p2) =>
        match GetShort(data, p2)
        case Fail => Fail
        case Got(c, p3) =>
          match Get(data, p3)
          case Fail => Fail
          case Got(depth, p4) =>
            match Skip(data, p4, Over(9, entryLen))
            case Fail => Fail
            case Got(_, p5) => Got(Head(size, t, c, depth), p5)
  }

  function GetEntry(data: seq<Byte>, p: nat, entryLen: nat, frameLen: nat, names: Names): Read<Info> {
    match GetHead(data, p, entryLen)
    case Fail => Fail
    case Got(h, q) =>
      match GetMany(Frames(data, frameLen, names), q, h.depth)
      case Fail => Fail
      case Got(fs, r) =>
        if h.classIndex >= |names.classes| then Fail
        else Got(Info(names.classes[h.classIndex], h.size, Signed16(h.threadId), fs), r)
  }

  function Entries(data: seq<Byte>, entryLen: nat, frameLen: nat, names: Names): nat -> Read<Info> {
    (p: nat) => GetEntry(data, p, entryLen, frameLen, names)
  }

  // ------------------------------------------------------------------- messages

  datatype Header = Header(messageLen: nat, entryLen: nat, frameLen: nat, entries: nat, strings: int,
                           classes: nat, methods: nat, files: nat)

  function GetHeader(data: seq<Byte>, p: nat): Option<Header> {
    match (Get(data, p), Get(data, p + 1), Get(data, p + 2), GetShort(data, p + 3), GetInt(data, p + 5),
           GetShort(data, p + 9), GetShort(data, p + 11), GetShort(data, p + 13))
    case (Got(m, _), Got(e, _), Got(f, _), Got(n, _), Got(s, _), Got(c, _), Got(k, _), Got(l, _)) =>
      Some(Header(m, e, f, n, s, c, k, l))
    case _ => None
  }

  function GetNames(data: seq<Byte>, h: Header): Option<Names> {
    if h.strings < 0 || h.strings > |data| then None
    else
      match GetMany(Strings(data), h.strings, h.classes)
      case Fail => None
      case Got(classes, p) =>
        match GetMany(Strings(data), p, h.methods)
        case Fail => None
        case Got(methods, q) =>
          match GetMany(Strings(data), q, h.files)
          case Fail => None
          case Got(files, _) => Some(Names(classes, methods, files))
  }

  /** The list as it is read, in the order of the message; the header begins at p. */
  function GetMessage(data: seq<Byte>, p: nat): Option<seq<Info>> {
    match GetHeader(data, p)
    case None => None
    case Some(h) =>
      match GetNames(data, h)
      case None => None
      case Some(names) =>
        if h.messageLen > |data| then None
        else
          match GetMany(Entries(data, h.entryLen, h.frameLen, names), h.messageLen, h.entries)
          case Fail => None
          case Got(es, _) => Some(es)
  }
}
