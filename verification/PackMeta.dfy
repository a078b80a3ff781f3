/**
  Packing and unpacking message metadata (comm/src/van.cc, comm/src/meta.h).  A
  buffer is a fixed header followed by a tail; the tail is modelled as the cells
  written to it, by byte offset: characters, ints and node records.
 */
module PackMeta {
  import opened Prelude

  type byte = x: int | 0 <= x < 256

  datatype Command =
    | EMPTY | TERMINATE | ADD_NODE | BARRIER | ACK | HEARTBEAT | BOOTSTRAP | ADDR_REQUEST | ADDR_RESOLVED
    | INSTANCE_BARRIER

  datatype Node = Node(
    role: int, id: int, customerId: int, hostname: seq<byte>, numPorts: int, ports: seq<int>,
    devTypes: seq<int>, devIds: seq<int>, port: int, isRecovery: bool, endpointName: seq<byte>,
    endpointNameLen: nat, auxId: int)

  datatype Control = Control(cmd: Command, node: seq<Node>, barrierGroup: int, msgSig: nat)

  // The fields that travel as they are.
  datatype Scalars = Scalars(
    head: int, appId: int, customerId: int, timestamp: int, request: bool, push: bool, simpleApp: bool,
    srcDevType: int, srcDevId: int, dstDevType: int, dstDevId: int, dataSize: int, key: nat, address: nat,
    valLen: int, option: int, sid: int, isTensor: int, dtype: int)

  datatype Meta = Meta(scalars: Scalars, body: seq<byte>, dataType: seq<int>, control: Control, shape: seq<int>)

  datatype RawNode = RawNode(
    role: int, id: int, hostname: seq<byte>, numPorts: int, ports: seq<int>, port: int, devTypes: seq<int>,
    devIds: seq<int>, isRecovery: bool, customerId: int, endpointName: seq<byte>, endpointNameLen: nat,
    auxId: int)

  datatype RawMeta = RawMeta(
    scalars: Scalars, bodySize: nat, cmd: Command, nodeSize: nat, barrierGroup: int, msgSig: nat,
    dataTypeSize: nat, dim: nat, shape: seq<int>)

  datatype Cell = Char(c: byte) | Int(i: int) | NodeRecord(n: RawNode)

  type Tail = map<nat, Cell>

  // sizeof(RawMeta) and sizeof(RawNode) with the usual 64-bit alignment
  const RAW_META: nat := 288
  const RAW_NODE: nat := 552

  function SizeOf(c: Cell): (r: nat)
    ensures r > 0
  {
    match c
    case Char(_) => 1
    case Int(_) => 4
    case NodeRecord(_) => RAW_NODE
  }

  function GetPackMetaLen(m: Meta): nat {
    RAW_META + |m.body| + |m.dataType| * 4 + |m.control.node| * RAW_NODE
  }

  // ---------------------------------------------------------------- strings

  function Zeros(n: nat): (s: seq<byte>)
    ensures |s| == n
  {
    seq(n, _ => 0)
  }

  // A char array read as a C string.
  function CString(s: seq<byte>): seq<byte> {
    if s == [] || s[0] == 0 then [] else [s[0]] + CString(s[1..])
  }

  ghost predicate NulFree(s: seq<byte>) {
    forall i :: 0 <= i < |s| ==> s[i] != 0
  }

  // A name comes back exactly when it has no NUL in it.
  lemma {:induction false} CStringPadded(s: seq<byte>, n: nat)
    requires n > 0
    ensures CString(s + Zeros(n)) == s <==> NulFree(s)
    ensures |CString(s + Zeros(n))| <= |s|
  {
    if s == [] {
      assert s + Zeros(n) == Zeros(n);
    } else if s[0] != 0 {
      CStringPadded(s[1..], n);
      assert (s + Zeros(n))[1..] == s[1..] + Zeros(n);
      assert s == [s[0]] + s[1..];
      assert NulFree(s) <==> NulFree(s[1..]) by {
        assert forall i :: 0 < i < |s| ==> s[i] == s[1..][i - 1];
      }
    }
  }

  // ---------------------------------------------------------------- nodes

  function PackNode(n: Node): RawNode
    requires |n.hostname| < 64
  {
    RawNode(n.role, n.id, n.hostname + Zeros(64 - |n.hostname|), n.numPorts, n.ports, n.port, n.devTypes, n.devIds,
            n.isRecovery, n.customerId, n.endpointName, n.endpointNameLen, n.auxId)
  }

  function UnpackNode(r: RawNode): Node {
    Node(r.role, r.id, r.customerId, CString(r.hostname), r.numPorts, r.ports, r.devTypes, r.devIds, r.port,
      r.isRecovery,
         r.endpointName, r.endpointNameLen, r.auxId)
  }

  lemma NodeRoundTrip(n: Node)
    requires |n.hostname| < 64
    ensures UnpackNode(PackNode(n)) == n <==> NulFree(n.hostname)
  {
    CStringPadded(n.hostname, 64 - |n.hostname|);
  }

  // ---------------------------------------------------------------- layout

  function TypesAt(bodySize: nat, i: nat): nat {
    bodySize + 4 * i
  }

  function NodeAt(bodySize: nat, typeSize: nat, i: nat): nat {
    bodySize + 4 * typeSize + RAW_NODE * i
  }

  // What the caller must respect: the header's fixed arrays are not overrun.
  ghost predicate Packable(m: Meta) {
    |m.shape| <= 8 && forall i :: 0 <= i < |m.control.node| ==> |m.control.node[i].hostname| < 64
  }

  function Header(m: Meta): RawMeta {
    var c := m.control;
    RawMeta(m.scalars, |m.body|, c.cmd, if c.cmd == EMPTY then 0 else |c.node|,
            if c.cmd == BARRIER
              || c.cmd == INSTANCE_BARRIER then c.barrierGroup else 0, if c.cmd == ACK then c.msgSig else 0,
            |m.dataType|, |m.shape|, m.shape + seq(if |m.shape| <= 8 then 8 - |m.shape| else 0, _ => 0))
  }

  ghost predicate CharsAt(tail: Tail, body: seq<byte>, n: nat) {
    n <= |body| && forall i :: 0 <= i < n ==> i in tail && tail[i] == Char(body[i])
  }

  ghost predicate TypesIn(tail: Tail, bodySize: nat, types: seq<int>, n: nat) {
    n <= |types| && forall i :: 0 <= i < n ==>
      TypesAt(bodySize, i) in tail && tail[TypesAt(bodySize, i)] == Int(types[i])
  }

  ghost predicate NodesIn(tail: Tail, bodySize: nat, typeSize: nat, nodes: seq<Node>, n: nat) {
    n <= |nodes| && forall i :: 0 <= i < n ==>
      && |nodes[i].hostname| < 64 && NodeAt(bodySize, typeSize, i) in tail
      && tail[NodeAt(bodySize, typeSize, i)] == NodeRecord(PackNode(nodes[i]))
  }

  // Every write is inside the first `size` bytes of the tail, and no two overlap.
  ghost predicate Inside(tail: Tail, size: nat) {
    && (forall o :: o in tail ==> o + SizeOf(tail[o]) <= size)
    && (forall o, p :: o in tail && p in tail && o < p ==> o + SizeOf(tail[o]) <= p)
  }

  // Every one of these bytes is part of a write.
  ghost predicate Full(tail: Tail, size: nat) {
    forall b :: 0 <= b < size ==> Written(tail, b)
  }

  ghost predicate Written(tail: Tail, b: nat) {
    exists o :: o in tail && o <= b < o + SizeOf(tail[o])
  }

  lemma FullNext(tail: Tail, size: nat, c: Cell)
    requires Inside(tail, size) && Full(tail, size)
    ensures Full(tail[size := c], size + SizeOf(c))
  {
    var tail' := tail[size := c];
    forall b | 0 <= b < size + SizeOf(c) ensures Written(tail', b) {
      if b < size {
        assert Written(tail, b);
        var o :| o in tail && o <= b < o + SizeOf(tail[o]);
        assert tail'[o] == tail[o];
      } else {
        assert tail'[size] == c;
      }
    }
  }

  lemma WriteNext(tail: Tail, size: nat, c: Cell)
    requires Inside(tail, size)
    ensures Inside(tail[size := c], size + SizeOf(c)) && size !in tail
    ensures forall o :: o in tail ==> o in tail[size := c] && tail[size := c][o] == tail[o]
  {
  }

  // ---------------------------------------------------------------- packing

  method WriteBody(body: seq<byte>) returns (tail: Tail)
    ensures CharsAt(tail, body, |body|) && Inside(tail, |body|) && Full(tail, |body|)
  {
    tail := map[];
    for i := 0 to |body|
      invariant CharsAt(tail, body, i) && Inside(tail, i) && Full(tail, i)
    {
      FullNext(tail, i, Char(body[i]));
      WriteNext(tail, i, Char(body[i]));
      tail := tail[i := Char(body[i])];
    }
  }

  method WriteTypes(tail: Tail, body: seq<byte>, types: seq<int>) returns (r: Tail)
    requires CharsAt(tail, body, |body|) && Inside(tail, |body|) && Full(tail, |body|)
    ensures CharsAt(r, body, |body|) && TypesIn(r, |body|, types, |types|) && Inside(r, TypesAt(|body|, |types|))
    ensures Full(r, TypesAt(|body|, |types|))
  {
    r := tail;
    for i := 0 to |types|
      invariant CharsAt(r, body, |body|) && TypesIn(r, |body|, types, i) && Inside(r, TypesAt(|body|, i))
      invariant Full(r, TypesAt(|body|, i))
    {
      FullNext(r, TypesAt(|body|, i), Int(types[i]));
      WriteNext(r, TypesAt(|body|, i), Int(types[i]));
      r := r[TypesAt(|body|, i) := Int(types[i])];
    }
  }

  method WriteNodes(tail: Tail, body: seq<byte>, types: seq<int>, nodes: seq<Node>) returns (r: Tail)
    requires CharsAt(tail, body, |body|) && TypesIn(tail, |body|, types, |types|)
    requires Inside(tail, TypesAt(|body|, |types|)) && Full(tail, TypesAt(|body|, |types|))
    requires forall i :: 0 <= i < |nodes| ==> |nodes[i].hostname| < 64
    ensures CharsAt(r, body, |body|) && TypesIn(r, |body|, types, |types|)
    ensures NodesIn(r, |body|, |types|, nodes, |nodes|)
    ensures Inside(r, NodeAt(|body|, |types|, |nodes|)) && Full(r, NodeAt(|body|, |types|, |nodes|))
  {
    r := tail;
    for i := 0 to |nodes|
      invariant CharsAt(r, body, |body|) && TypesIn(r, |body|, types, |types|) && NodesIn(r, |body|, |types|, nodes, i)
      invariant Inside(r, NodeAt(|body|, |types|, i)) && Full(r, NodeAt(|body|, |types|, i))
    {
      FullNext(r, NodeAt(|body|, |types|, i), NodeRecord(PackNode(nodes[i])));
      WriteNext(r, NodeAt(|body|, |types|, i), NodeRecord(PackNode(nodes[i])));
      r := r[NodeAt(|body|, |types|, i) := NodeRecord(PackNode(nodes[i]))];
    }
  }

  // All writes stay within GetPackMetaLen bytes, and fill them unless nodes are left
  // out for want of a command.
  method Pack(m: Meta) returns (raw: RawMeta, tail: Tail, size: nat)
    requires Packable(m)
    ensures size == GetPackMetaLen(m) && Inside(tail, size - RAW_META)
    ensures m.control.cmd != EMPTY || m.control.node == [] ==> Full(tail, size - RAW_META)
    ensures raw == Header(m) && CharsAt(tail, m.body, |m.body|) && TypesIn(tail, |m.body|, m.dataType, |m.dataType|)
    ensures m.control.cmd != EMPTY ==> NodesIn(tail, |m.body|, |m.dataType|, m.control.node, |m.control.node|)
  {
    size := GetPackMetaLen(m);
    raw := Header(m);
    tail := WriteBody(m.body);
    tail := WriteTypes(tail, m.body, m.dataType);
    if m.control.cmd != EMPTY {
      tail := WriteNodes(tail, m.body, m.dataType, m.control.node);
    }
  }

  // ---------------------------------------------------------------- unpacking

  // A buffer whose header agrees with its tail.
  ghost predicate Readable(raw: RawMeta, tail: Tail) {
    && (forall i :: 0 <= i < raw.bodySize ==> i in tail && tail[i].Char?)
    && (forall i :: 0 <= i < raw.dataTypeSize ==>
      TypesAt(raw.bodySize, i) in tail && tail[TypesAt(raw.bodySize, i)].Int?)
    && (forall i :: 0 <= i < raw.nodeSize ==>
         NodeAt(raw.bodySize, raw.dataTypeSize, i) in tail
           && tail[NodeAt(raw.bodySize, raw.dataTypeSize, i)].NodeRecord?)
    && raw.dim <= |raw.shape|
  }

  // The record that a buffer stands for.
  ghost predicate Reads(raw: RawMeta, tail: Tail, m: Meta)
    requires Readable(raw, tail)
  {
    && m.scalars == raw.scalars && m.shape == raw.shape[..raw.dim]
    && m.control.cmd == raw.cmd && m.control.barrierGroup == raw.barrierGroup && m.control.msgSig == raw.msgSig
    && |m.body| == raw.bodySize && (forall i :: 0 <= i < raw.bodySize ==> tail[i] == Char(m.body[i]))
    && |m.dataType| == raw.dataTypeSize
      && (forall i :: 0 <= i < raw.dataTypeSize ==> tail[TypesAt(raw.bodySize, i)] == Int(m.dataType[i]))
    && |m.control.node| == raw.nodeSize
    && (forall i :: 0 <= i < raw.nodeSize ==>
      m.control.node[i] == UnpackNode(tail[NodeAt(raw.bodySize, raw.dataTypeSize, i)].n))
  }

  method ReadBody(raw: RawMeta, tail: Tail) returns (body: seq<byte>)
    requires Readable(raw, tail)
    ensures |body| == raw.bodySize && forall i :: 0 <= i < raw.bodySize ==> tail[i] == Char(body[i])
  {
    body := [];
    for i := 0 to raw.bodySize
      invariant |body| == i && forall j :: 0 <= j < i ==> tail[j] == Char(body[j])
    {
      body := body + [tail[i].c];
    }
  }

  method ReadTypes(raw: RawMeta, tail: Tail) returns (types: seq<int>)
    requires Readable(raw, tail)
    ensures |types| == raw.dataTypeSize
    ensures forall i :: 0 <= i < raw.dataTypeSize ==> tail[TypesAt(raw.bodySize, i)] == Int(types[i])
  {
    types := [];
    for i := 0 to raw.dataTypeSize
      invariant |types| == i && forall j :: 0 <= j < i ==> tail[TypesAt(raw.bodySize, j)] == Int(types[j])
    {
      types := types + [tail[TypesAt(raw.bodySize, i)].i];
    }
  }

  method ReadNodes(raw: RawMeta, tail: Tail) returns (nodes: seq<Node>)
    requires Readable(raw, tail)
    ensures |nodes| == raw.nodeSize
    ensures forall i :: 0 <= i < raw.nodeSize ==>
      nodes[i] == UnpackNode(tail[NodeAt(raw.bodySize, raw.dataTypeSize, i)].n)
  {
    nodes := [];
    for i := 0 to raw.nodeSize
      invariant |nodes| == i
      invariant forall j :: 0 <= j < i ==> nodes[j] == UnpackNode(tail[NodeAt(raw.bodySize, raw.dataTypeSize, j)].n)
    {
      nodes := nodes + [UnpackNode(tail[NodeAt(raw.bodySize, raw.dataTypeSize, i)].n)];
    }
  }

  // Into a fresh record.
  method Unpack(raw: RawMeta, tail: Tail) returns (m: Meta)
    requires Readable(raw, tail)
    ensures Reads(raw, tail, m)
  {
    var body := ReadBody(raw, tail);
    var types := ReadTypes(raw, tail);
    var nodes := ReadNodes(raw, tail);
    var shape := [];
    for i := 0 to raw.dim
      invariant shape == raw.shape[..i]
    {
      shape := shape + [raw.shape[i]];
    }
    m := Meta(raw.scalars, body, types, Control(raw.cmd, nodes, raw.barrierGroup, raw.msgSig), shape);
  }

  // ---------------------------------------------------------------- round trip

  // The metadata that survives: nodes only with a command, the barrier group and
  // the signature only with the commands that carry them, names without NUL.
  ghost predicate WellFormed(m: Meta) {
    var c := m.control;
    && (c.cmd == EMPTY ==> c.node == [])
    && (c.cmd != BARRIER && c.cmd != INSTANCE_BARRIER ==> c.barrierGroup == 0)
    && (c.cmd != ACK ==> c.msgSig == 0)
    && forall i :: 0 <= i < |c.node| ==> NulFree(c.node[i].hostname)
  }

  // Unpacking inverts packing exactly on well-formed metadata.
  method RoundTrip(m: Meta) returns (r: Meta)
    requires Packable(m)
    ensures r == m <==> WellFormed(m)
    ensures r.scalars == m.scalars && r.body == m.body && r.dataType == m.dataType && r.shape == m.shape
    ensures r.control.cmd == m.control.cmd
  {
    var raw, tail, size := Pack(m);
    r := Unpack(raw, tail);
    assert r.body == m.body && r.dataType == m.dataType && r.shape == m.shape;
    SameNodes(m, r.control.node);
  }

  lemma SameNodes(m: Meta, nodes: seq<Node>)
    requires Packable(m) && |nodes| == (if m.control.cmd == EMPTY then 0 else |m.control.node|)
    requires forall i :: 0 <= i < |nodes| ==> nodes[i] == UnpackNode(PackNode(m.control.node[i]))
    ensures nodes == m.control.node <==>
      && (m.control.cmd == EMPTY ==> m.control.node == [])
      && forall i :: 0 <= i < |m.control.node| ==> NulFree(m.control.node[i].hostname)
  {
    var c := m.control;
    forall i | 0 <= i < |nodes| ensures nodes[i] == c.node[i] <==> NulFree(c.node[i].hostname) {
      NodeRoundTrip(c.node[i]);
    }
  }
}
