/**
 The command lines of a dynamic update, as read_update_line and build_update of dns.c read them.

 The conversions of names, TTLs, types and record data from text are library code and come as parameters.
 */
module UpdateLines {

  import opened Bytes
  import opened Wire

  const TYPE_ANY: u16 := 255

  datatype Text = Text(
    zone: string -> Option<Name>,
    owner: (Name, string) -> Option<Name>,
    ttl: string -> Option<u32>,
    rtype: string -> Option<u16>,
    data: (Name, u16, string) -> Option<seq<byte>>)

  /** No data is the empty sequence; no type is the type ANY. */
  datatype Command =
    | Add(owner: Name, ttl: u32, rtype: u16, data: seq<byte>)
    | Delete(owner: Name, rtype: u16, data: seq<byte>)
    | Require(owner: Name, rtype: u16, data: seq<byte>)
    | Prohibit(owner: Name, rtype: u16)

  datatype Line = Send | Do(command: Command) | Bad

  datatype Fields = Fields(owner: Name, ttl: u32, rtype: u16, data: seq<byte>)

  /** The characters that end a token. */
  predicate IsBlank(c: char) {
    c == ' ' || c == '\t' || c == '\n'
  }

  /** isspace in the C locale: also vertical tab, form feed and carriage return. */
  predicate IsSpace(c: char) {
    c == ' ' || 9 as char <= c <= 13 as char
  }

  function Lower(c: char): char {
    if 'A' <= c <= 'Z' then (c as int + 32) as char else c
  }

  function LowerAll(s: string): (r: string)
    ensures |r| == |s| && forall i :: 0 <= i < |s| ==> r[i] == Lower(s[i])
  {
    seq(|s|, i requires 0 <= i < |s| => Lower(s[i]))
  }

  /** token_equals: the same length, and the same letters in either case. */
  predicate TokenEquals(token: string, str: string) {
    |str| == |token| && LowerAll(str) == LowerAll(token)
  }

  /** strcspn with the blanks */
  function TokenLen(s: string): (n: nat)
    ensures n <= |s|
  {
    if s == [] || IsBlank(s[0]) then 0 else TokenLen(s[1..]) + 1
  }

  function Skip(s: string): string {
    if s != [] && IsSpace(s[0]) then Skip(s[1..]) else s
  }

  /** The next token, and what follows it and its spaces. */
  function Next(s: string): (string, string) {
    (s[..TokenLen(s)], Skip(s[TokenLen(s)..]))
  }

  function ReadData(t: Text, zone: Name, f: Fields, s: string, need: bool): Option<Fields> {
    if s == [] then if need then None else Some(f)
    else match t.data(zone, f.rtype, s)
      case None => None
      case Some(data) => Some(f.(data := data))
  }

  function ReadType(t: Text, zone: Name, f: Fields, s: string, wantData: bool, needData: bool): Option<Fields> {
    var (token, rest) := Next(s);
    if token == [] then Some(f)
    else match t.rtype(token)
      case None => None
      case Some(rtype) =>
        if wantData then ReadData(t, zone, f.(rtype := rtype), rest, needData) else Some(f.(rtype := rtype))
  }

  /** read_update_line */
  function ReadFields(t: Text, zone: Name, s: string, wantTtl: bool, wantData: bool, needData: bool): Option<Fields> {
    var (token, rest) := Next(Skip(s));
    match t.owner(zone, token)
    case None => None
    case Some(owner) =>
      if !wantTtl then ReadType(t, zone, Fields(owner, 0, TYPE_ANY, []), rest, wantData, needData)
      else
        var (token', rest') := Next(rest);
        match t.ttl(token')
        case None => None
        case Some(ttl) => ReadType(t, zone, Fields(owner, ttl, TYPE_ANY, []), rest', wantData, needData)
  }

  function ReadLine(t: Text, zone: Name, line: string): Line {
    var token, s := line[..TokenLen(line)], line[TokenLen(line)..];
    if TokenEquals(token, "send") then Send
    else if TokenEquals(token, "add") then
      match ReadFields(t, zone, s, true, true, true)
      case None => Bad
      case Some(f) => Do(Add(f.owner, f.ttl, f.rtype, f.data))
    else if TokenEquals(token, "delete") then
      match ReadFields(t, zone, s, false, true, false)
      case None => Bad
      case Some(f) => Do(Delete(f.owner, f.rtype, f.data))
    else if TokenEquals(token, "require") then
      match ReadFields(t, zone, s, false, true, false)
      case None => Bad
      case Some(f) => Do(Require(f.owner, f.rtype, f.data))
    else if TokenEquals(token, "prohibit") then
      match ReadFields(t, zone, s, false, false, false)
      case None => Bad
      case Some(f) => Do(Prohibit(f.owner, f.rtype))
    else Bad
  }

  function ReadLines(t: Text, zone: Name, lines: seq<string>): (r: seq<Line>)
    ensures |r| == |lines|
  {
    if lines == [] then [] else [ReadLine(t, zone, lines[0])] + ReadLines(t, zone, lines[1..])
  }

  lemma ReadLinesRest(t: Text, zone: Name, lines: seq<string>)
    requires lines != []
    ensures ReadLines(t, zone, lines)[1..] == ReadLines(t, zone, lines[1..])
  {
  }

  lemma {:induction false} ReadLinesAt(t: Text, zone: Name, lines: seq<string>, i: nat)
    requires i < |lines|
    ensures ReadLines(t, zone, lines)[i] == ReadLine(t, zone, lines[i])
  {
    if i > 0 {
      ReadLinesAt(t, zone, lines[1..], i - 1);
    }
  }

  predicate IsGap(g: string) {
    g != [] && IsBlank(g[0]) && forall i :: 0 <= i < |g| ==> IsSpace(g[i])
  }

  predicate IsToken(s: string) {
    s != [] && !IsSpace(s[0]) && forall i :: 0 <= i < |s| ==> !IsBlank(s[i])
  }

  /** What can follow a gap: nothing, or something that does not start with a space. */
  predicate Follows(s: string) {
    s == [] || !IsSpace(s[0])
  }

  lemma {:induction false} SkipGap(g: string, rest: string)
    requires (forall i :: 0 <= i < |g| ==> IsSpace(g[i])) && Follows(rest)
    ensures Skip(g + rest) == rest
  {
    if g == [] {
      assert g + rest == rest;
    } else {
      assert (g + rest)[1..] == g[1..] + rest;
      SkipGap(g[1..], rest);
    }
  }

  lemma {:induction false} TokenLenIs(token: string, rest: string)
    requires (forall i :: 0 <= i < |token| ==> !IsBlank(token[i])) && (rest == [] || IsBlank(rest[0]))
    ensures TokenLen(token + rest) == |token|
  {
    if token == [] {
      assert token + rest == rest;
    } else {
      assert (token + rest)[1..] == token[1..] + rest;
      TokenLenIs(token[1..], rest);
    }
  }

  lemma NextToken(token: string, g: string, rest: string)
    requires IsToken(token) && IsGap(g) && Follows(rest)
    ensures TokenLen(token + (g + rest)) == |token|
    ensures Next(token + (g + rest)).0 == token && Next(token + (g + rest)).1 == rest
  {
    var s := token + (g + rest);
    TokenLenIs(token, g + rest);
    assert s[..|token|] == token && s[|token|..] == g + rest;
    SkipGap(g, rest);
  }

  lemma LastToken(token: string)
    requires IsToken(token)
    ensures TokenLen(token) == |token| && Next(token).0 == token && Next(token).1 == []
  {
    assert token + [] == token;
    TokenLenIs(token, []);
  }

  /** The parts of a line behind its keyword, up to the type. */
  lemma TypeReads(t: Text, zone: Name, f: Fields, rtype: string, g: string, data: string, want: bool, need: bool)
    requires IsToken(rtype) && IsGap(g) && data != [] && Follows(data) && t.rtype(rtype).Some?
    requires t.data(zone, t.rtype(rtype).value, data).Some?
    ensures ReadType(t, zone, f, rtype + (g + data), true, need) ==
      Some(f.(rtype := t.rtype(rtype).value, data := t.data(zone, t.rtype(rtype).value, data).value))
    ensures ReadType(t, zone, f, rtype, want, false) == Some(f.(rtype := t.rtype(rtype).value))
  {
    NextToken(rtype, g, data);
    LastToken(rtype);
  }

  /** An add line with all its parts, whatever the case of the keyword and however wide the gaps. */
  lemma AddReads(t: Text, zone: Name, add: string, owner: string, ttl: string, rtype: string, data: string,
                 g0: string, g1: string, g2: string, g3: string)
    requires TokenEquals(add, "add") && IsToken(add) && IsToken(owner) && IsToken(ttl) && IsToken(rtype)
    requires data != [] && Follows(data) && IsGap(g0) && IsGap(g1) && IsGap(g2) && IsGap(g3)
    requires t.owner(zone, owner).Some? && t.ttl(ttl).Some? && t.rtype(rtype).Some?
    requires t.data(zone, t.rtype(rtype).value, data).Some?
    ensures ReadLine(t, zone, add + (g0 + (owner + (g1 + (ttl + (g2 + (rtype + (g3 + data)))))))) ==
      Do(Add(t.owner(zone, owner).value, t.ttl(ttl).value, t.rtype(rtype).value,
             t.data(zone, t.rtype(rtype).value, data).value))
  {
    var s3 := rtype + (g3 + data);
    var s2 := ttl + (g2 + s3);
    var s1 := owner + (g1 + s2);
    var line := add + (g0 + s1);
    NextToken(add, g0, s1);
    assert line[..|add|] == add && line[|add|..] == g0 + s1;
    SkipGap(g0, s1);
    NextToken(owner, g1, s2);
    NextToken(ttl, g2, s3);
    TypeReads(t, zone, Fields(t.owner(zone, owner).value, t.ttl(ttl).value, TYPE_ANY, []), rtype, g3, data, true, true);
  }

  /** The other lines: an owner, then perhaps a type, then perhaps data. */
  lemma FieldsRead(t: Text, zone: Name, owner: string, rtype: string, data: string,
                   g0: string, g1: string, g2: string, want: bool)
    requires IsToken(owner) && IsToken(rtype) && data != [] && Follows(data) && IsGap(g0) && IsGap(g1) && IsGap(g2)
    requires t.owner(zone, owner).Some? && t.rtype(rtype).Some? && t.data(zone, t.rtype(rtype).value, data).Some?
    ensures var name, ty := t.owner(zone, owner).value, t.rtype(rtype).value;
      && ReadFields(t, zone, g0 + owner, false, want, false) == Some(Fields(name, 0, TYPE_ANY, []))
      && ReadFields(t, zone, g0 + (owner + (g1 + rtype)), false, want, false) == Some(Fields(name, 0, ty, []))
      && ReadFields(t, zone, g0 + (owner + (g1 + (rtype + (g2 + data)))), false, true, false) ==
        Some(Fields(name, 0, ty, t.data(zone, ty, data).value))
  {
    SkipGap(g0, owner);
    LastToken(owner);
    SkipGap(g0, owner + (g1 + rtype));
    NextToken(owner, g1, rtype);
    SkipGap(g0, owner + (g1 + (rtype + (g2 + data))));
    NextToken(owner, g1, rtype + (g2 + data));
    TypeReads(t, zone, Fields(t.owner(zone, owner).value, 0, TYPE_ANY, []), rtype, g2, data, want, false);
  }

  lemma KeywordReads(t: Text, zone: Name, kw: string, s: string)
    requires IsToken(kw) && s != [] && IsBlank(s[0])
    ensures (kw + s)[..TokenLen(kw + s)] == kw && (kw + s)[TokenLen(kw + s)..] == s
  {
    TokenLenIs(kw, s);
  }

  lemma OtherReads(t: Text, zone: Name, kw: string, owner: string, rtype: string, data: string,
                   g0: string, g1: string, g2: string)
    requires IsToken(kw) && IsToken(owner) && IsToken(rtype) && data != [] && Follows(data)
    requires IsGap(g0) && IsGap(g1) && IsGap(g2)
    requires t.owner(zone, owner).Some? && t.rtype(rtype).Some? && t.data(zone, t.rtype(rtype).value, data).Some?
    ensures var name, ty := t.owner(zone, owner).value, t.rtype(rtype).value;
      var bytes := t.data(zone, ty, data).value;
      var bare, typed := kw + (g0 + owner), kw + (g0 + (owner + (g1 + rtype)));
      var full := kw + (g0 + (owner + (g1 + (rtype + (g2 + data)))));
      && (TokenEquals(kw, "delete") ==>
           && ReadLine(t, zone, bare) == Do(Delete(name, TYPE_ANY, []))
           && ReadLine(t, zone, typed) == Do(Delete(name, ty, []))
           && ReadLine(t, zone, full) == Do(Delete(name, ty, bytes)))
      && (TokenEquals(kw, "require") ==>
           && ReadLine(t, zone, bare) == Do(Require(name, TYPE_ANY, []))
           && ReadLine(t, zone, typed) == Do(Require(name, ty, []))
           && ReadLine(t, zone, full) == Do(Require(name, ty, bytes)))
      && (TokenEquals(kw, "prohibit") ==>
           && ReadLine(t, zone, bare) == Do(Prohibit(name, TYPE_ANY))
           && ReadLine(t, zone, typed) == Do(Prohibit(name, ty)))
  {
    FieldsRead(t, zone, owner, rtype, data, g0, g1, g2, false);
    FieldsRead(t, zone, owner, rtype, data, g0, g1, g2, true);
    KeywordReads(t, zone, kw, g0 + owner);
    KeywordReads(t, zone, kw, g0 + (owner + (g1 + rtype)));
    KeywordReads(t, zone, kw, g0 + (owner + (g1 + (rtype + (g2 + data)))));
  }
}
