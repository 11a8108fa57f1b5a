/** A line format for records that is Faithful, so that what is proved for faithful codecs is not empty. */
module RecordCodec {
  import opened Prelude
  import opened Sessions
  import opened ShardLog
  import opened Recovery

  const MORE: Byte := 49
  const END: Byte := 48

  // A record as a list of fields, and a field as a list of numbers.
  type Field = seq<int>

  function StateCode(s: SessionState): int {
    match s
    case Requested => 0
    case CapabilityChecked => 1
    case Negotiating => 2
    case Charging => 3
    case Authorized => 4
    case Completed => 5
    case ThermalThrottled => 6
    case ProtocolFallback => 7
    case Rejected => 8
  }

  function Points(s: string): Field {
    seq(|s|, i requires 0 <= i < |s| => s[i] as int)
  }

  function Fields(r: Record): seq<Field> {
    match r
    case SessionRecord(m, ts) =>
      [[0], Points(m.id), Points(m.number), [StateCode(m.state)], Points(m.handshakeID), Points(m.mitigationID),
       Points(m.firmware), [m.requestedAt], [m.version], Points(m.shard), Points(ts)]
    case OtherRecord(kind, body, ts) => [[1], Points(kind), Points(body), Points(ts)]
  }

  function Unary(n: nat): Bytes {
    if n == 0 then [END] else [MORE] + Unary(n - 1)
  }

  function NumberCode(i: int): nat {
    if i < 0 then -2 * i - 1 else 2 * i
  }

  function FieldCode(f: Field): Bytes {
    if f == [] then [END] else [MORE] + Unary(NumberCode(f[0])) + FieldCode(f[1..])
  }

  function LineCode(fs: seq<Field>): Bytes {
    if fs == [] then [END] else [MORE] + FieldCode(fs[0]) + LineCode(fs[1..])
  }

  function EncodeLine(r: Record): Bytes {
    LineCode(Fields(r))
  }

  ghost function DecodeLine(line: Bytes): Option<Record> {
    if exists r :: EncodeLine(r) == line then
      var r :| EncodeLine(r) == line;
      Some(r)
    else None
  }

  // ---------- every code says where it ends ----------

  lemma Heads(x: Byte, y: Byte, s: Bytes, t: Bytes)
    requires [x] + s == [y] + t
    ensures x == y && s == t
  {
    assert ([x] + s)[0] == x && ([x] + s)[1..] == s && ([y] + t)[0] == y && ([y] + t)[1..] == t;
  }

  lemma {:induction false} UnaryEnds(m: nat, n: nat, a: Bytes, b: Bytes)
    requires Unary(m) + a == Unary(n) + b
    ensures m == n && a == b
  {
    var s := if m == 0 then a else Unary(m - 1) + a;
    var t := if n == 0 then b else Unary(n - 1) + b;
    assert Unary(m) + a == [Unary(m)[0]] + s;
    assert Unary(n) + b == [Unary(n)[0]] + t;
    Heads(Unary(m)[0], Unary(n)[0], s, t);
    if m > 0 {
      UnaryEnds(m - 1, n - 1, a, b);
    }
  }

  lemma {:induction false} FieldEnds(f: Field, g: Field, a: Bytes, b: Bytes)
    requires FieldCode(f) + a == FieldCode(g) + b
    ensures f == g && a == b
  {
    var s := if f == [] then a else Unary(NumberCode(f[0])) + (FieldCode(f[1..]) + a);
    var t := if g == [] then b else Unary(NumberCode(g[0])) + (FieldCode(g[1..]) + b);
    assert FieldCode(f) + a == [FieldCode(f)[0]] + s;
    assert FieldCode(g) + b == [FieldCode(g)[0]] + t;
    Heads(FieldCode(f)[0], FieldCode(g)[0], s, t);
    if f != [] {
      UnaryEnds(NumberCode(f[0]), NumberCode(g[0]), FieldCode(f[1..]) + a, FieldCode(g[1..]) + b);
      FieldEnds(f[1..], g[1..], a, b);
      assert f == [f[0]] + f[1..] && g == [g[0]] + g[1..];
    }
  }

  lemma {:induction false} LineEnds(f: seq<Field>, g: seq<Field>, a: Bytes, b: Bytes)
    requires LineCode(f) + a == LineCode(g) + b
    ensures f == g && a == b
  {
    var s := if f == [] then a else FieldCode(f[0]) + (LineCode(f[1..]) + a);
    var t := if g == [] then b else FieldCode(g[0]) + (LineCode(g[1..]) + b);
    assert LineCode(f) + a == [LineCode(f)[0]] + s;
    assert LineCode(g) + b == [LineCode(g)[0]] + t;
    Heads(LineCode(f)[0], LineCode(g)[0], s, t);
    if f != [] {
      FieldEnds(f[0], g[0], LineCode(f[1..]) + a, LineCode(g[1..]) + b);
      LineEnds(f[1..], g[1..], a, b);
      assert f == [f[0]] + f[1..] && g == [g[0]] + g[1..];
    }
  }

  lemma PointsDetermine(s: string, t: string)
    ensures Points(s) == Points(t) ==> s == t
  {
    if Points(s) == Points(t) {
      assert |s| == |Points(s)| == |t|;
      forall i | 0 <= i < |s|
        ensures s[i] == t[i]
      {
        assert Points(s)[i] == Points(t)[i];
      }
    }
  }

  lemma FieldsDetermine(q: Record, r: Record)
    requires Fields(q) == Fields(r)
    ensures q == r
  {
    var f, g := Fields(q), Fields(r);
    assert f[0] == g[0];
    PointsDetermine(q.ts, r.ts);
    if q.SessionRecord? {
      assert [StateCode(q.m.state)][0] == [StateCode(r.m.state)][0];
      PointsDetermine(q.m.id, r.m.id);
      PointsDetermine(q.m.number, r.m.number);
      PointsDetermine(q.m.handshakeID, r.m.handshakeID);
      PointsDetermine(q.m.mitigationID, r.m.mitigationID);
      PointsDetermine(q.m.firmware, r.m.firmware);
      PointsDetermine(q.m.shard, r.m.shard);
    } else {
      PointsDetermine(q.kind, r.kind);
      PointsDetermine(q.body, r.body);
    }
  }

  // ---------- no code holds a newline ----------

  lemma {:induction false} UnaryIsPlain(n: nat)
    ensures NEWLINE !in Unary(n)
  {
    if n > 0 {
      UnaryIsPlain(n - 1);
    }
  }

  lemma {:induction false} FieldIsPlain(f: Field)
    ensures NEWLINE !in FieldCode(f)
  {
    if f != [] {
      UnaryIsPlain(NumberCode(f[0]));
      FieldIsPlain(f[1..]);
    }
  }

  lemma {:induction false} LineIsPlain(fs: seq<Field>)
    ensures LineCode(fs) != [] && NEWLINE !in LineCode(fs)
  {
    if fs != [] {
      FieldIsPlain(fs[0]);
      LineIsPlain(fs[1..]);
    }
  }

  /** There is a faithful codec: the assumption on JSON can be met. */
  lemma FaithfulCodec() returns (c: Codec)
    ensures c.encode == EncodeLine && Faithful(c)
  {
    c := Codec(EncodeLine, DecodeLine);
    forall r
      ensures IsRecord(c.encode(r)) && c.decode(c.encode(r)) == Some(r)
    {
      LineIsPlain(Fields(r));
      DecodeUndoesEncode(r);
    }
    forall r, p | p < c.encode(r)
      ensures c.decode(p) == None
    {
      ProperPrefixIsNoLine(r, p);
    }
  }

  lemma DecodeUndoesEncode(r: Record)
    ensures DecodeLine(EncodeLine(r)) == Some(r)
  {
    hide LineCode, Fields;
    forall q | EncodeLine(q) == EncodeLine(r)
      ensures q == r
    {
      assert LineCode(Fields(q)) + [] == LineCode(Fields(r)) + [];
      LineEnds(Fields(q), Fields(r), [], []);
      FieldsDetermine(q, r);
    }
  }

  lemma ProperPrefixIsNoLine(r: Record, p: Bytes)
    requires p < EncodeLine(r)
    ensures DecodeLine(p) == None
  {
    hide LineCode, Fields;
    forall q
      ensures EncodeLine(q) != p
    {
      if EncodeLine(q) == p {
        var rest := EncodeLine(r)[|p|..];
        assert LineCode(Fields(q)) + rest == LineCode(Fields(r)) + [];
        LineEnds(Fields(q), Fields(r), rest, []);
        assert false;
      }
    }
  }
}
