/** HTTP requests as a reader sees them: lines at CRLF, fields of the first line at spaces, header names at a colon. */
module HttpRequest {
  import opened Bytes

  datatype Field = Field(name: seq<byte>, value: seq<byte>)

  datatype Request = Request(verb: seq<byte>, authority: seq<byte>, version: seq<byte>, fields: seq<Field>)

  datatype Read<T> = Read(item: T, rest: seq<byte>)

  /** The bytes before the first CRLF, and those after it. */
  function CutLine(s: seq<byte>): (r: Option<Read<seq<byte>>>)
    ensures r.Some? ==> s == r.value.item + [0x0D, 0x0A] + r.value.rest && OneLine(r.value.item)
  {
    if |s| < 2 then None
    else if s[0] == 0x0D && s[1] == 0x0A then Some(Read([], s[2..]))
    else
      match CutLine(s[1..])
      case None => None
      case Some(r) =>
        assert s == [s[0]] + s[1..];
        Some(Read([s[0]] + r.item, r.rest))
  }

  predicate OneLine(s: seq<byte>) {
    forall i :: 0 <= i < |s| - 1 ==> !(s[i] == 0x0D && s[i + 1] == 0x0A)
  }

  /** The bytes before the first `c`, and those after it. */
  function CutAt(s: seq<byte>, c: byte): (r: Option<Read<seq<byte>>>)
    ensures r.Some? ==> s == r.value.item + [c] + r.value.rest && c !in r.value.item
  {
    if s == [] then None
    else if s[0] == c then Some(Read([], s[1..]))
    else
      match CutAt(s[1..], c)
      case None => None
      case Some(r) =>
        assert s == [s[0]] + s[1..];
        Some(Read([s[0]] + r.item, r.rest))
  }

  /** Header fields up to the first empty line; one space after the colon is not part of the value. */
  function ReadFields(s: seq<byte>): Option<Read<seq<Field>>>
    decreases |s|
  {
    match CutLine(s)
    case None => None
    case Some(line) =>
      if line.item == [] then Some(Read([], line.rest))
      else
        match CutAt(line.item, 0x3A)
        case None => None
        case Some(f) =>
          var value := if f.rest != [] && f.rest[0] == 0x20 then f.rest[1..] else f.rest;
          match ReadFields(line.rest)
          case None => None
          case Some(later) => Some(Read([Field(f.item, value)] + later.item, later.rest))
  }

  function ReadRequest(s: seq<byte>): Option<Read<Request>> {
    match CutLine(s)
    case None => None
    case Some(line) =>
      match CutAt(line.item, 0x20)
      case None => None
      case Some(verb) =>
        match CutAt(verb.rest, 0x20)
        case None => None
        case Some(authority) =>
          match ReadFields(line.rest)
          case None => None
          case Some(fields) =>
            Some(Read(Request(verb.item, authority.item, authority.rest, fields.item), fields.rest))
  }

  lemma {:induction false} LineIsCut(a: seq<byte>, rest: seq<byte>)
    requires OneLine(a)
    ensures CutLine(a + [0x0D, 0x0A] + rest) == Some(Read(a, rest))
    decreases |a|
  {
    var s := a + [0x0D, 0x0A] + rest;
    if a == [] {
      assert s[2..] == rest;
    } else {
      assert s[1..] == a[1..] + [0x0D, 0x0A] + rest && a == [a[0]] + a[1..];
      LineIsCut(a[1..], rest);
    }
  }

  lemma {:induction false} FieldIsCut(a: seq<byte>, c: byte, rest: seq<byte>)
    requires c !in a
    ensures CutAt(a + [c] + rest, c) == Some(Read(a, rest))
    decreases |a|
  {
    var s := a + [c] + rest;
    if a == [] {
      assert s[1..] == rest;
    } else {
      assert s[1..] == a[1..] + [c] + rest && a == [a[0]] + a[1..];
      FieldIsCut(a[1..], c, rest);
    }
  }

  lemma EmptyLineEnds(rest: seq<byte>)
    ensures ReadFields([0x0D, 0x0A] + rest) == Some(Read([], rest))
  {
    LineIsCut([], rest);
    assert [] + [0x0D, 0x0A] + rest == [0x0D, 0x0A] + rest;
  }

  /** One header line is read as its name and value. */
  lemma FieldIsRead(name: seq<byte>, value: seq<byte>, later: seq<byte>)
    requires 0x3A !in name && OneLine(name + [0x3A, 0x20] + value) && ReadFields(later).Some?
    ensures ReadFields(name + [0x3A, 0x20] + value + [0x0D, 0x0A] + later)
         == Some(Read([Field(name, value)] + ReadFields(later).value.item, ReadFields(later).value.rest))
  {
    var line := name + [0x3A, 0x20] + value;
    LineIsCut(line, later);
    assert line == name + [0x3A] + ([0x20] + value);
    FieldIsCut(name, 0x3A, [0x20] + value);
    assert ([0x20] + value)[1..] == value;
  }

  lemma RequestLineIsRead(verb: seq<byte>, authority: seq<byte>, version: seq<byte>, later: seq<byte>)
    requires 0x20 !in verb && 0x20 !in authority && OneLine(verb + [0x20] + (authority + [0x20] + version))
    requires ReadFields(later).Some?
    ensures ReadRequest(verb + [0x20] + (authority + [0x20] + version) + [0x0D, 0x0A] + later)
         == Some(Read(Request(verb, authority, version, ReadFields(later).value.item), ReadFields(later).value.rest))
  {
    LineIsCut(verb + [0x20] + (authority + [0x20] + version), later);
    FieldIsCut(verb, 0x20, authority + [0x20] + version);
    FieldIsCut(authority, 0x20, version);
  }

  /** What is read as the authority has no space in it and is on one line. */
  lemma AuthorityIsClean(s: seq<byte>)
    requires ReadRequest(s).Some?
    ensures var a := ReadRequest(s).value.item.authority; 0x20 !in a && OneLine(a)
  {
    var line := CutLine(s).value.item;
    var verb := CutAt(line, 0x20).value;
    var a := CutAt(verb.rest, 0x20).value;
    forall i | 0 <= i < |a.item| - 1 ensures !(a.item[i] == 0x0D && a.item[i + 1] == 0x0A) {
      var k := |verb.item| + 1 + i;
      assert line[k] == verb.rest[i] == a.item[i] && line[k + 1] == verb.rest[i + 1] == a.item[i + 1];
    }
  }
}
