/** descriptorToDot against the type descriptors of the virtual machine. */
module HeapNames {
  import opened HeapMessage

  /** The types that descriptors stand for; a class is named by the parts of its path. */
  datatype Type = Primitive(letter: Unit) | Class(path: seq<Text>) | Array(of: Type)

  predicate WellFormed(t: Type) {
    match t
    case Primitive(u) => Basic(u).Some?
    case Class(path) => forall i :: 0 <= i < |path| ==> SLASH !in path[i]
    case Array(of) => WellFormed(of)
  }

  function Join(path: seq<Text>, separator: Unit): Text
    decreases |path|
  {
    if path == [] then [] else if |path| == 1 then path[0]
    else Join(path[..|path| - 1], separator) + [separator] + path[|path| - 1]
  }

  /** "[[Ljava/lang/String;" */
  function Descriptor(t: Type): Text {
    match t
    case Primitive(u) => [u]
    case Class(path) => [L] + Join(path, SLASH) + [SEMICOLON]
    case Array(of) => [OPEN] + Descriptor(of)
  }

  /** "java.lang.String[][]" */
  function SourceName(t: Type): Text
    requires WellFormed(t)
  {
    match t
    case Primitive(u) => Basic(u).value
    case Class(path) => Join(path, DOT)
    case Array(of) => SourceName(of) + [OPEN, CLOSE]
  }

  lemma {:induction false} JoinReplaced(path: seq<Text>)
    requires forall i :: 0 <= i < |path| ==> SLASH !in path[i]
    ensures Replaced(Join(path, SLASH)) == Join(path, DOT)
    decreases |path|
  {
    if |path| == 1 {
      assert Replaced(path[0]) == path[0];
    } else if |path| > 1 {
      var n := |path| - 1;
      JoinReplaced(path[..n]);
      ReplacedSum(Join(path[..n], SLASH), [SLASH]);
      ReplacedSum(Join(path[..n], SLASH) + [SLASH], path[n]);
      assert Replaced([SLASH]) == [DOT];
      assert Replaced(path[n]) == path[n];
    }
  }

  lemma ReplacedSum(a: Text, b: Text)
    ensures Replaced(a + b) == Replaced(a) + Replaced(b)
  {
  }

  /** Every descriptor becomes the name of its type. */
  lemma {:induction false} DescriptorNames(t: Type)
    requires WellFormed(t)
    ensures Dotted(Descriptor(t)) == SourceName(t)
  {
    match t {
      case Primitive(u) =>
      case Class(path) =>
        var inner := Join(path, SLASH);
        var s := [L] + inner + [SEMICOLON];
        assert IsObject(s) && s[1..|s| - 1] == inner;
        JoinReplaced(path);
      case Array(of) =>
        var s := [OPEN] + Descriptor(of);
        assert s[1..] == Descriptor(of);
        DescriptorNames(of);
    }
  }

  lemma {:induction false} DottedLength(s: Text)
    requires s != [] && s[0] == OPEN
    ensures Dotted(s) != [] && Dotted(s)[|Dotted(s)| - 1] == CLOSE
    ensures !IsObject(Stripped(s)) && (|Stripped(s)| != 1 || Basic(Stripped(s)[0]).None?) ==> |s| < |Dotted(s)|
    decreases |s|
  {
    var rest := s[1..];
    if rest != [] && rest[0] == OPEN {
      DottedLength(rest);
      assert Stripped(s) == Stripped(rest);
    } else {
      assert Stripped(s) == rest;
    }
  }

  /** What stands behind the opening brackets. */
  function Stripped(s: Text): (r: Text)
    ensures |r| <= |s|
    ensures r == [] || s[|s| - 1] == r[|r| - 1]
    decreases |s|
  {
    if s != [] && s[0] == OPEN then Stripped(s[1..]) else s
  }

  lemma BasicNames(u: Unit)
    ensures Basic(u).Some? ==> |Basic(u).value| >= 3 && u != CLOSE
  {
  }

  /** Method and file names go through the same function: it leaves a name alone exactly
      if the name does not look like a descriptor. */
  lemma NameKept(s: Text)
    ensures Dotted(s) == s <==>
            !(s != [] && s[0] == OPEN) && !IsObject(s) && !(|s| == 1 && Basic(s[0]).Some?)
  {
    if s != [] && s[0] == OPEN {
      DottedLength(s);
      var r := Stripped(s);
      if IsObject(r) || (|r| == 1 && Basic(r[0]).Some?) {
        if |r| == 1 {
          BasicNames(r[0]);
        }
        assert s[|s| - 1] != CLOSE;
      }
    } else if |s| == 1 {
      BasicNames(s[0]);
    }
  }

  /** A method called I is listed as int. */
  lemma MangledName()
    ensures Dotted(Letters("I")) == Letters("int")
  {
    assert Letters("I") == ['I' as int];
  }
}
