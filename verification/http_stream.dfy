// What a run of the HTTP parser means, one byte at a time: the callbacks it
// makes, with adjacent pieces of one data callback joined, and how it ends.
module HttpStream {
  import opened HttpMachine
  import opened HttpShape

  // A callback: a piece of data, or a notice with the content_length that its
  // receiver finds in the parser.
  datatype Event = Data(kind: Kind, bytes: string) | Noted(note: Note, cl: nat)

  // Unspecified: the run met a header value byte that is no header character,
  // which the parser refuses only in some of its inner states.
  datatype End = Going | Stopped | Failed(e: Errno) | Unspecified

  datatype Step = Step(p: Parser, events: seq<Event>, end: End)

  datatype Run = Run(p: Parser, log: seq<Event>, end: End, count: nat)

  predicate Bytes(s: string) { forall k :: 0 <= k < |s| ==> s[k] < 256 as char }

  // ---------- joined callbacks ----------

  function Append(log: seq<Event>, e: Event): seq<Event> {
    var n := |log|;
    if n > 0 && e.Data? && log[n - 1].Data? && log[n - 1].kind == e.kind
    then log[..n - 1] + [Data(e.kind, log[n - 1].bytes + e.bytes)]
    else log + [e]
  }

  function Extend(log: seq<Event>, es: seq<Event>): seq<Event> {
    if es == [] then log else Append(Extend(log, es[..|es| - 1]), es[|es| - 1])
  }

  function Joined(raw: seq<Event>): seq<Event> { Extend([], raw) }

  lemma ExtendOne(log: seq<Event>, e: Event)
    ensures Extend(log, [e]) == Append(log, e)
  {
    assert [e][..0] == [];
    assert Extend(log, []) == log;
  }

  lemma {:induction false} ExtendSum(log: seq<Event>, a: seq<Event>, b: seq<Event>)
    ensures Extend(log, a + b) == Extend(Extend(log, a), b)
    decreases |b|
  {
    if b == [] {
      assert a + b == a;
    } else {
      var n := |b| - 1;
      assert (a + b)[..|a + b| - 1] == a + b[..n];
      ExtendSum(log, a, b[..n]);
    }
  }

  lemma JoinedMore(raw: seq<Event>, e: Event)
    ensures Joined(raw + [e]) == Append(Joined(raw), e)
  {
    ExtendSum([], raw, [e]);
    ExtendOne(Joined(raw), e);
  }

  // Two pieces in a row count as one.
  lemma AppendTwice(log: seq<Event>, k: Kind, a: string, b: string)
    ensures Append(Append(log, Data(k, a)), Data(k, b)) == Append(log, Data(k, a + b))
  {
    var n := |log|;
    if n > 0 && log[n - 1].Data? && log[n - 1].kind == k {
      var w := log[n - 1].bytes;
      var one := log[..n - 1] + [Data(k, w + a)];
      assert Append(log, Data(k, a)) == one;
      assert one[..n - 1] == log[..n - 1];
      assert (w + a) + b == w + (a + b);
    } else {
      var one := log + [Data(k, a)];
      assert one[..n] == log;
    }
  }

  lemma AppendNothing(log: seq<Event>, k: Kind, a: string)
    ensures Append(Append(log, Data(k, a)), Data(k, "")) == Append(log, Data(k, a))
  {
    AppendTwice(log, k, a, "");
    assert a + "" == a;
  }

  // ---------- one byte ----------

  function Item(s: St, c: char): seq<Event> {
    if UrlState(s) then [Data(Url, [c])] else if s.ResStatus? then [Data(Status, [c])]
    else if s.HeaderField? then [Data(Field, [c])] else if s.HeaderValue? then [Data(Value, [c])]
    else []
  }

  function Tell(a: Act, cl: nat): seq<Event> {
    match a
    case Mark(_) => []
    case Flush(k) => if k.Body? then [] else [Data(k, "")]
    case Notify(n) => [Noted(n, cl)]
  }

  function Told(acts: seq<Act>, cl: nat): seq<Event> {
    if acts == [] then [] else Tell(acts[0], cl) + Told(acts[1..], cl)
  }

  lemma RankFalls(p: Parser, c: char)
    requires c < 256 as char && !Looping(p.st) && OneByte(p, c).flow.Again?
    ensures Rank(OneByte(p, c).p.st) < Rank(p.st) && !Looping(OneByte(p, c).p.st)
  {
    hide OneByte, Rank, Looping, Open, Calm;
    OneByteShape(p, c);
  }

  // A byte in a state of the switch, looked at until some state takes it.
  function OneStep(p: Parser, c: char): Step
    requires c < 256 as char && !Looping(p.st)
    decreases Rank(p.st)
  {
    var o := OneByte(p, c);
    var told := Told(o.acts, o.p.cl);
    match o.flow
    case Advance => Step(o.p, told + Item(o.p.st, c), Going)
    case Again =>
      RankFalls(p, c);
      var next := OneStep(o.p, c);
      Step(next.p, told + next.events, next.end)
    case Stop => Step(o.p, told, Stopped)
    case Fail(e) => Step(o.p, told, Failed(e))
  }

  function ValueStep(p: Parser, c: char): Step
    requires c < 256 as char
  {
    if c == CR then Step(p.(st := HeaderAlmostDone), [Data(Value, "")], Going)
    else if c == LF then
      var next := OneStep(p.(st := HeaderAlmostDone), c);
      Step(next.p, [Data(Value, "")] + next.events, next.end)
    else if !IsHeaderChar(c) then Step(p, [], Unspecified)
    else
      var o := ValueChar(p, c);
      match o.flow
      case Fail(e) => Step(o.p, [], Failed(e))
      case _ => Step(o.p, [Data(Value, [c])], Going)
  }

  function BodyStep(p: Parser, c: char): Step
    requires c < 256 as char
  {
    if p.cl > 1 then Step(p.(cl := p.cl - 1), [Data(Body, [c])], Going)
    else
      var next := OneStep(p.(cl := 0, st := MessageDone), c);
      Step(next.p, [Data(Body, [c])] + next.events, next.end)
  }

  function ByteStep(p: Parser, c: char): Step
    requires c < 256 as char
  {
    if !Looping(p.st) then OneStep(p, c)
    else
      match p.st
      case HeaderField =>
        var t := Token(c);
        if t != 0 as char then Step(FieldChar(p, c, t), [Data(Field, [c])], Going)
        else if c == ':' then Step(p.(st := DiscardWs), [Data(Field, "")], Going)
        else Step(p, [], Failed(InvalidHeaderToken))
      case HeaderValue => ValueStep(p, c)
      case BodyIdentity => BodyStep(p, c)
      case BodyIdentityEof => Step(p, [Data(Body, [c])], Going)
      case _ => ChunkStep(p, c)
  }

  function ChunkStep(p: Parser, c: char): Step {
    var left := if p.cl > 1 then p.cl - 1 else 0;
    Step(p.(cl := left, st := if left == 0 then ChunkDataAlmostDone else ChunkData), [Data(Body, [c])], Going)
  }

  function Feed(r: Run, c: char): Run
    requires c < 256 as char
  {
    if !r.end.Going? then r
    else
      var s := ByteStep(r.p, c);
      Run(s.p, Extend(r.log, s.events), s.end, if s.end.Going? || s.end.Stopped? then r.count + 1 else r.count)
  }

  function RunOver(r: Run, data: string): Run
    requires Bytes(data)
  {
    if data == "" then r else Feed(RunOver(r, data[..|data| - 1]), data[|data| - 1])
  }

  lemma RunNext(r: Run, data: string, i: nat)
    requires Bytes(data) && i < |data|
    ensures RunOver(r, data[..i + 1]) == Feed(RunOver(r, data[..i]), data[i])
  {
    assert data[..i + 1][..i] == data[..i];
  }

  // A run over two pieces in a row.
  lemma {:induction false} RunSum(r: Run, a: string, b: string)
    requires Bytes(a) && Bytes(b)
    ensures Bytes(a + b) && RunOver(r, a + b) == RunOver(RunOver(r, a), b)
    decreases |b|
  {
    if b == "" {
      assert a + b == a;
    } else {
      var n := |b| - 1;
      assert (a + b)[..|a + b| - 1] == a + b[..n];
      RunSum(r, a, b[..n]);
    }
  }

  // A run that has ended does not change.
  lemma {:induction false} RunEnded(r: Run, data: string)
    requires Bytes(data) && !r.end.Going?
    ensures RunOver(r, data) == r
    decreases |data|
  {
    if data != "" { RunEnded(r, data[..|data| - 1]); }
  }

  lemma RunEndedAt(r: Run, data: string, i: nat)
    requires Bytes(data) && i <= |data| && !RunOver(r, data[..i]).end.Going?
    ensures RunOver(r, data) == RunOver(r, data[..i])
  {
    assert data[..i] + data[i..] == data;
    RunSum(r, data[..i], data[i..]);
    RunEnded(RunOver(r, data[..i]), data[i..]);
  }
}
