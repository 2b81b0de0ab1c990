/**
 Resource records in a DNS message, as dns.c writes them.

 Names and record data are written by library code that compresses: what it emits depends on the message so far and
 on the offsets in its compression table, and may be shorter than the plain form.  That library is a parameter here.
 All that is asked of it is that reading inverts writing in every message that still has the same bytes at the offsets
 the library itself wrote, whatever else has been patched meanwhile.
 */
module Wire {

  import opened Bytes

  const HEADER_LEN := 12

  type Label = s: seq<byte> | 0 < |s| < 64 witness [0]

  function NameLen(n: seq<Label>): nat {
    if n == [] then 1 else 1 + |n[0]| + NameLen(n[1..])
  }

  type Name = n: seq<Label> | NameLen(n) <= 255 witness []

  /** Names and record data to and from the wire; `table` holds the offsets that compression may point to. */
  datatype Library = Library(
    putName: (seq<byte>, set<nat>, Name) -> seq<byte>,
    getName: (seq<byte>, nat) -> Option<(Name, nat)>,
    putData: (seq<byte>, set<nat>, u16, seq<byte>) -> seq<byte>,
    getData: (seq<byte>, nat, nat, u16) -> Option<seq<byte>>)

  /** The message m has what the library wrote into msg. */
  ghost predicate Agrees(m: seq<byte>, msg: seq<byte>, table: set<nat>) {
    |m| >= |msg| && forall o :: o in table && o < |msg| ==> m[o] == msg[o]
  }

  ghost predicate NameLaw(w: Library, msg: seq<byte>, table: set<nat>, n: Name, m: seq<byte>) {
    var b := w.putName(msg, table, n);
    && |b| <= 255
    && (Agrees(m, msg, table) && Holds(m, |msg|, b) ==> w.getName(m, |msg|) == Some((n, |msg| + |b|)))
  }

  ghost predicate DataLaw(w: Library, msg: seq<byte>, table: set<nat>, t: u16, data: seq<byte>, m: seq<byte>) {
    var b := w.putData(msg, table, t, data);
    data != [] ==>
      && b != []
      && (Agrees(m, msg, table) && Holds(m, |msg|, b) ==> w.getData(m, |msg|, |b|, t) == Some(data))
  }

  ghost predicate Lawful(w: Library) {
    && (forall msg: seq<byte>, table: set<nat>, n: Name, m: seq<byte> {:trigger NameLaw(w, msg, table, n, m)} :: NameLaw(w, msg, table, n, m))
    && (forall msg: seq<byte>, table: set<nat>, t: u16, data: seq<byte>, m: seq<byte>
         {:trigger DataLaw(w, msg, table, t, data, m)} ::
         DataLaw(w, msg, table, t, data, m))
  }

  datatype Record = Record(owner: Name, rtype: u16, class_: u16, ttl: u32, data: seq<byte>)

  /** The message so far and the compression table. */
  datatype Packet = Packet(bytes: seq<byte>, table: set<nat>)

  function Offsets(lo: nat, hi: nat): (s: set<nat>)
    ensures forall o :: o in s <==> lo <= o < hi
    decreases hi - lo
  {
    if lo >= hi then {} else {lo} + Offsets(lo + 1, hi)
  }

  /** dns_name_towire */
  function PutName(w: Library, cap: nat, p: Packet, n: Name): Option<Packet> {
    var b := w.putName(p.bytes, p.table, n);
    if |p.bytes| + |b| > cap then None
    else Some(Packet(p.bytes + b, p.table + Offsets(|p.bytes|, |p.bytes| + |b|)))
  }

  /** dns_rdata_towire */
  function PutData(w: Library, cap: nat, p: Packet, t: u16, data: seq<byte>): Option<Packet> {
    var b := w.putData(p.bytes, p.table, t, data);
    if |p.bytes| + |b| > cap then None
    else Some(Packet(p.bytes + b, p.table + Offsets(|p.bytes|, |p.bytes| + |b|)))
  }

  /** Type, class and TTL. */
  function Fixed(r: Record): (b: seq<byte>)
    ensures |b| == 8
  {
    PutU16(r.rtype) + PutU16(r.class_) + PutU32(r.ttl)
  }

  /** The record data behind a header whose length field is still zero. */
  function DataPart(w: Library, cap: nat, p: Packet, r: Record): Option<Packet> {
    var p0 := Packet(p.bytes + Fixed(r) + PutU16(0), p.table);
    if r.data == [] then Some(p0) else PutData(w, cap, p0, r.rtype, r.data)
  }

  /** The message with a 16-bit number written over two of its bytes. */
  function Patched(m: seq<byte>, at: nat, x: u16): (r: seq<byte>)
    requires at + 2 <= |m|
    ensures |r| == |m|
  {
    m[at := x / 0x100][at + 1 := x % 0x100]
  }

  /** One record of build_update: owner name, fixed part, data, and then the length of the data as it came out. */
  function PutRecord(w: Library, cap: nat, p: Packet, r: Record): (p': Option<Packet>)
    requires cap <= 0xFFFF
  {
    match PutName(w, cap, p, r.owner)
    case None => None
    case Some(p1) =>
      if cap - |p1.bytes| < 10 then None
      else match DataPart(w, cap, p1, r)
        case None => None
        case Some(p2) =>
          Some(p2.(bytes := Patched(p2.bytes, |p1.bytes| + 8, |p2.bytes| - |p1.bytes| - 10)))
  }

  function GetRecord(w: Library, m: seq<byte>, at: nat): Option<(Record, nat)> {
    match w.getName(m, at)
    case None => None
    case Some((owner, a)) =>
      if a + 10 > |m| || a + 10 + GetU16(m, a + 8) > |m| then None
      else
        var t, len := GetU16(m, a), GetU16(m, a + 8);
        var data := if len == 0 then Some([]) else w.getData(m, a + 10, len, t);
        if data == None then None
        else Some((Record(owner, t, GetU16(m, a + 2), GetU32(m, a + 4), data.value), a + 10 + len))
  }

  /** m is the message, but for its header, which is patched last, and what follows. */
  ghost predicate Extends(m: seq<byte>, bytes: seq<byte>) {
    |m| >= |bytes| && forall i :: HEADER_LEN <= i < |bytes| ==> m[i] == bytes[i]
  }

  ghost predicate TableOk(p: Packet) {
    |p.bytes| >= HEADER_LEN && forall o :: o in p.table ==> HEADER_LEN <= o < |p.bytes|
  }

  /** The bytes of a record, with its parts in place. */
  lemma RecordShape(w: Library, cap: nat, p: Packet, r: Record)
    requires cap <= 0xFFFF && PutRecord(w, cap, p, r).Some?
    ensures var p' := PutRecord(w, cap, p, r).value;
      var p1 := PutName(w, cap, p, r.owner).value;
      var p0 := Packet(p1.bytes + Fixed(r) + PutU16(0), p1.table);
      var data := if r.data == [] then [] else w.putData(p0.bytes, p0.table, r.rtype, r.data);
      && p'.bytes == p1.bytes + (Fixed(r) + PutU16(|data|) + data) && |p'.bytes| <= cap
      && p'.table == p1.table + if r.data == [] then {} else Offsets(|p0.bytes|, |p'.bytes|)
  {
  }

  lemma PartHolds(m: seq<byte>, a: seq<byte>, b: seq<byte>)
    requires Extends(m, a + b) && |a| >= HEADER_LEN
    ensures Holds(m, |a|, b) && Extends(m, a)
  {
    forall i | 0 <= i < |b| ensures m[|a| + i] == b[i] {
      assert (a + b)[|a| + i] == b[i];
    }
    forall i | HEADER_LEN <= i < |a| ensures m[i] == a[i] {
      assert (a + b)[i] == a[i];
    }
  }

  lemma NameReads(w: Library, cap: nat, p: Packet, n: Name, m: seq<byte>)
    requires Lawful(w) && TableOk(p) && PutName(w, cap, p, n).Some?
    requires Extends(m, PutName(w, cap, p, n).value.bytes)
    ensures TableOk(PutName(w, cap, p, n).value)
    ensures w.getName(m, |p.bytes|) == Some((n, |PutName(w, cap, p, n).value.bytes|))
  {
    PartHolds(m, p.bytes, w.putName(p.bytes, p.table, n));
    assert NameLaw(w, p.bytes, p.table, n, m);
  }

  lemma FixedReads(m: seq<byte>, at: nat, r: Record, data: seq<byte>)
    requires |data| < 0x10000 && Holds(m, at, Fixed(r) + PutU16(|data|) + data)
    ensures at + 10 + |data| <= |m|
    ensures GetU16(m, at) == r.rtype && GetU16(m, at + 2) == r.class_ && GetU32(m, at + 4) == r.ttl
    ensures GetU16(m, at + 8) == |data| && Holds(m, at + 10, data)
  {
    HoldsSplit(m, at, Fixed(r) + PutU16(|data|), data);
    HoldsSplit(m, at, Fixed(r), PutU16(|data|));
    HoldsSplit(m, at, PutU16(r.rtype) + PutU16(r.class_), PutU32(r.ttl));
    HoldsSplit(m, at, PutU16(r.rtype), PutU16(r.class_));
    U16RoundTrip(m, at, r.rtype);
    U16RoundTrip(m, at + 2, r.class_);
    U32RoundTrip(m, at + 4, r.ttl);
    U16RoundTrip(m, at + 8, |data|);
  }

  /** The data was written behind a zero length, and reads the same behind the right one. */
  lemma DataReads(w: Library, p: Packet, head: seq<byte>, t: u16, data: seq<byte>, m: seq<byte>)
    requires Lawful(w) && TableOk(p) && data != []
    requires Extends(m, p.bytes) && Holds(m, |p.bytes + head|, w.putData(p.bytes + head, p.table, t, data))
    ensures w.getData(m, |p.bytes + head|, |w.putData(p.bytes + head, p.table, t, data)|, t) == Some(data)
    ensures w.putData(p.bytes + head, p.table, t, data) != []
  {
    var msg := p.bytes + head;
    forall o | o in p.table ensures m[o] == msg[o] {
      assert msg[o] == p.bytes[o];
    }
    assert DataLaw(w, msg, p.table, t, data, m);
  }

  lemma TableGrows(w: Library, cap: nat, p: Packet, r: Record)
    requires TableOk(p) && cap <= 0xFFFF && PutRecord(w, cap, p, r).Some?
    ensures TableOk(PutRecord(w, cap, p, r).value)
    ensures TableOk(PutName(w, cap, p, r.owner).value)
  {
  }

  lemma RecordParts(w: Library, cap: nat, p: Packet, r: Record, m: seq<byte>) returns (p1: Packet, data: seq<byte>)
    requires TableOk(p) && cap <= 0xFFFF && PutRecord(w, cap, p, r).Some?
    requires Extends(m, PutRecord(w, cap, p, r).value.bytes)
    ensures PutName(w, cap, p, r.owner) == Some(p1) && TableOk(p1) && Extends(m, p1.bytes)
    ensures |data| < 0x10000 && Holds(m, |p1.bytes|, Fixed(r) + PutU16(|data|) + data)
    ensures |PutRecord(w, cap, p, r).value.bytes| == |p1.bytes| + 10 + |data|
    ensures data == if r.data == [] then [] else w.putData(p1.bytes + (Fixed(r) + PutU16(0)), p1.table, r.rtype, r.data)
  {
    RecordShape(w, cap, p, r);
    p1 := PutName(w, cap, p, r.owner).value;
    var head := Fixed(r) + PutU16(0);
    data := if r.data == [] then [] else w.putData(p1.bytes + head, p1.table, r.rtype, r.data);
    assert p1.bytes + head == p1.bytes + Fixed(r) + PutU16(0);
    PartHolds(m, p1.bytes, Fixed(r) + PutU16(|data|) + data);
  }

  /** A record reads back from every message that grows out of this one. */
  lemma RecordReads(w: Library, cap: nat, p: Packet, r: Record, m: seq<byte>)
    requires Lawful(w) && TableOk(p) && cap <= 0xFFFF && PutRecord(w, cap, p, r).Some?
    requires Extends(m, PutRecord(w, cap, p, r).value.bytes)
    ensures GetRecord(w, m, |p.bytes|) == Some((r, |PutRecord(w, cap, p, r).value.bytes|))
  {
    var p1, data := RecordParts(w, cap, p, r, m);
    NameReads(w, cap, p, r.owner, m);
    FixedReads(m, |p1.bytes|, r, data);
    if r.data != [] {
      DataReads(w, p1, Fixed(r) + PutU16(0), r.rtype, r.data, m);
    }
  }

  function PutRecords(w: Library, cap: nat, p: Packet, rs: seq<Record>): Option<Packet>
    requires cap <= 0xFFFF
    decreases |rs|
  {
    if rs == [] then Some(p)
    else match PutRecord(w, cap, p, rs[0])
      case None => None
      case Some(p') => PutRecords(w, cap, p', rs[1..])
  }

  function GetRecords(w: Library, m: seq<byte>, at: nat, n: nat): Option<(seq<Record>, nat)>
    decreases n
  {
    if n == 0 then Some(([], at))
    else match GetRecord(w, m, at)
      case None => None
      case Some((r, a)) =>
        match GetRecords(w, m, a, n - 1)
        case None => None
        case Some((rs, end)) => Some(([r] + rs, end))
  }

  lemma ExtendsOn(m: seq<byte>, b: seq<byte>, a: seq<byte>)
    requires Extends(m, b) && a <= b
    ensures Extends(m, a)
  {
  }

  lemma RecordExtends(w: Library, cap: nat, p: Packet, r: Record)
    requires cap <= 0xFFFF && PutRecord(w, cap, p, r).Some?
    ensures p.bytes <= PutRecord(w, cap, p, r).value.bytes
    ensures |PutRecord(w, cap, p, r).value.bytes| <= cap
  {
    RecordShape(w, cap, p, r);
  }

  lemma {:induction false} RecordsExtend(w: Library, cap: nat, p: Packet, rs: seq<Record>)
    requires cap <= 0xFFFF && PutRecords(w, cap, p, rs).Some? && |p.bytes| <= cap
    ensures p.bytes <= PutRecords(w, cap, p, rs).value.bytes
    ensures |PutRecords(w, cap, p, rs).value.bytes| <= cap
    decreases |rs|
  {
    if rs != [] {
      RecordExtends(w, cap, p, rs[0]);
      RecordsExtend(w, cap, PutRecord(w, cap, p, rs[0]).value, rs[1..]);
    }
  }

  lemma ReadOneMore(w: Library, m: seq<byte>, at: nat, r: Record, a: nat, rs: seq<Record>, end: nat)
    requires GetRecord(w, m, at) == Some((r, a)) && GetRecords(w, m, a, |rs|) == Some((rs, end))
    ensures GetRecords(w, m, at, |rs| + 1) == Some(([r] + rs, end))
  {
  }

  /** Records written one after the other read back in the same order. */
  lemma {:induction false} RecordsRead(w: Library, cap: nat, p: Packet, rs: seq<Record>, m: seq<byte>, p'': Packet)
    requires Lawful(w) && TableOk(p) && cap <= 0xFFFF && |p.bytes| <= cap
    requires PutRecords(w, cap, p, rs) == Some(p'') && Extends(m, p''.bytes)
    ensures TableOk(p'') && GetRecords(w, m, |p.bytes|, |rs|) == Some((rs, |p''.bytes|))
    decreases |rs|
  {
    if rs != [] {
      var p' := PutRecord(w, cap, p, rs[0]).value;
      RecordExtends(w, cap, p, rs[0]);
      TableGrows(w, cap, p, rs[0]);
      RecordsExtend(w, cap, p', rs[1..]);
      ExtendsOn(m, p''.bytes, p'.bytes);
      RecordReads(w, cap, p, rs[0], m);
      RecordsRead(w, cap, p', rs[1..], m, p'');
      ReadOneMore(w, m, |p.bytes|, rs[0], |p'.bytes|, rs[1..], |p''.bytes|);
      assert [rs[0]] + rs[1..] == rs;
    }
  }

  lemma {:induction false} RecordsConcat(w: Library, cap: nat, p: Packet, rs: seq<Record>, ss: seq<Record>)
    requires cap <= 0xFFFF
    ensures PutRecords(w, cap, p, rs + ss) ==
      if PutRecords(w, cap, p, rs).None? then None else PutRecords(w, cap, PutRecords(w, cap, p, rs).value, ss)
    decreases |rs|
  {
    if rs == [] {
      assert rs + ss == ss;
    } else {
      assert (rs + ss)[1..] == rs[1..] + ss;
      if PutRecord(w, cap, p, rs[0]).Some? {
        RecordsConcat(w, cap, PutRecord(w, cap, p, rs[0]).value, rs[1..], ss);
      }
    }
  }

  /** Names as lists of counted labels, without compression. */
  function PlainName(n: seq<Label>): (b: seq<byte>)
    ensures |b| == NameLen(n)
  {
    if n == [] then [0] else [|n[0]|] + n[0] + PlainName(n[1..])
  }

  function ReadLabels(m: seq<byte>, at: nat): Option<(seq<Label>, nat)>
    decreases |m| - at
  {
    if at >= |m| then None
    else if m[at] == 0 then Some(([], at + 1))
    else if m[at] >= 64 || at + 1 + m[at] > |m| then None
    else match ReadLabels(m, at + 1 + m[at])
      case None => None
      case Some((n, end)) =>
        var part: Label := m[at + 1..at + 1 + m[at]];
        Some(([part] + n, end))
  }

  lemma {:induction false} LabelsRead(m: seq<byte>, at: nat, n: seq<Label>)
    requires Holds(m, at, PlainName(n))
    ensures ReadLabels(m, at) == Some((n, at + NameLen(n)))
    decreases |n|
  {
    if n == [] {
      assert m[at + 0] == PlainName(n)[0];
    } else {
      var k := |n[0]|;
      HoldsSplit(m, at, [k] + n[0], PlainName(n[1..]));
      HoldsSplit(m, at, [k], n[0]);
      assert m[at + 0] == [k][0];
      assert m[at + 1..at + 1 + k] == n[0];
      LabelsRead(m, at + 1 + k, n[1..]);
      assert [n[0]] + n[1..] == n;
    }
  }

  function ReadName(m: seq<byte>, at: nat): Option<(Name, nat)> {
    match ReadLabels(m, at)
    case None => None
    case Some((n, end)) =>
      if NameLen(n) > 255 then None
      else
        var name: Name := n;
        Some((name, end))
  }

  /** The library that never compresses. */
  function Plain(): Library {
    Library((msg: seq<byte>, table: set<nat>, n: Name) => PlainName(n), ReadName,
            (msg: seq<byte>, table: set<nat>, t: u16, data: seq<byte>) => data,
            (m: seq<byte>, at: nat, len: nat, t: u16) => if at + len <= |m| then Some(m[at..at + len]) else None)
  }

  lemma PlainIsLawful()
    ensures Lawful(Plain())
  {
    var w := Plain();
    forall msg: seq<byte>, table: set<nat>, n: Name, m: seq<byte> ensures NameLaw(w, msg, table, n, m) {
      if Holds(m, |msg|, PlainName(n)) {
        LabelsRead(m, |msg|, n);
      }
    }
    forall msg: seq<byte>, table: set<nat>, t: u16, data: seq<byte>, m: seq<byte> ensures DataLaw(w, msg, table, t, data, m) {
      if Holds(m, |msg|, data) {
        assert m[|msg|..|msg| + |data|] == data;
      }
    }
  }

  /** The whole name stands in the message at offset o, written by the library and within reach of a pointer. */
  predicate NameAt(msg: seq<byte>, table: set<nat>, n: Name, o: nat) {
    && o < 0x4000 && o + NameLen(n) <= |msg|
    && forall i :: 0 <= i < NameLen(n) ==> o + i in table && msg[o + i] == PlainName(n)[i]
  }

  /** The last place at or before o where the name stands. */
  function FindName(msg: seq<byte>, table: set<nat>, n: Name, o: nat): (r: Option<nat>)
    ensures r.Some? ==> NameAt(msg, table, n, r.value)
  {
    if NameAt(msg, table, n, o) then Some(o) else if o == 0 then None else FindName(msg, table, n, o - 1)
  }

  /** A name that has been written before becomes a pointer to it (section 4.1.4 of RFC 1035). */
  function PointedName(msg: seq<byte>, table: set<nat>, n: Name): seq<byte> {
    var o := FindName(msg, table, n, |msg|);
    if n != [] && o.Some? then [0xC0 + o.value / 0x100, o.value % 0x100] else PlainName(n)
  }

  function FollowName(m: seq<byte>, at: nat): Option<(Name, nat)> {
    if at + 2 <= |m| && m[at] >= 0xC0 then
      match ReadName(m, (m[at] as int - 0xC0) * 0x100 + m[at + 1] as int)
      case None => None
      case Some((n, _)) => Some((n, at + 2))
    else ReadName(m, at)
  }

  /** The library that compresses whole names. */
  function Pointing(): Library {
    Plain().(putName := PointedName, getName := FollowName)
  }

  lemma PlainNameReads(m: seq<byte>, at: nat, n: Name)
    requires Holds(m, at, PlainName(n))
    ensures ReadName(m, at) == Some((n, at + NameLen(n))) && at < |m| && m[at] < 64
  {
    LabelsRead(m, at, n);
    assert m[at + 0] == PlainName(n)[0];
  }

  lemma PointerReads(msg: seq<byte>, table: set<nat>, n: Name, m: seq<byte>)
    requires Agrees(m, msg, table) && Holds(m, |msg|, PointedName(msg, table, n))
    ensures FollowName(m, |msg|) == Some((n, |msg| + |PointedName(msg, table, n)|))
  {
    var b, found := PointedName(msg, table, n), FindName(msg, table, n, |msg|);
    if n != [] && found.Some? {
      var o := found.value;
      assert m[|msg| + 0] == b[0] && m[|msg| + 1] == b[1];
      assert (b[0] as int - 0xC0) * 0x100 + b[1] as int == o;
      assert Holds(m, o, PlainName(n));
      PlainNameReads(m, o, n);
    } else {
      PlainNameReads(m, |msg|, n);
    }
  }

  lemma PointingIsLawful()
    ensures Lawful(Pointing())
  {
    PlainIsLawful();
    var w := Pointing();
    forall msg: seq<byte>, table: set<nat>, n: Name, m: seq<byte> ensures NameLaw(w, msg, table, n, m) {
      if Agrees(m, msg, table) && Holds(m, |msg|, PointedName(msg, table, n)) {
        PointerReads(msg, table, n, m);
      }
    }
    forall msg: seq<byte>, table: set<nat>, t: u16, data: seq<byte>, m: seq<byte>
      ensures DataLaw(w, msg, table, t, data, m)
    {
      assert DataLaw(Plain(), msg, table, t, data, m);
    }
  }

  /** It does compress: a name other than the root that the library has written within reach takes two bytes. */
  lemma PointingCompresses(msg: seq<byte>, table: set<nat>, n: Name, o: nat)
    requires n != [] && o <= |msg| && NameAt(msg, table, n, o)
    ensures |Pointing().putName(msg, table, n)| == 2
  {
    FindsName(msg, table, n, o, |msg|);
  }

  lemma {:induction false} FindsName(msg: seq<byte>, table: set<nat>, n: Name, o: nat, from: nat)
    requires o <= from && NameAt(msg, table, n, o)
    ensures FindName(msg, table, n, from).Some?
    decreases from
  {
    if !NameAt(msg, table, n, from) {
      FindsName(msg, table, n, o, from - 1);
    }
  }
}
