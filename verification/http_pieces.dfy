// Cutting the input into buffers does not change what the HTTP parser makes of
// it.
module HttpPieces {
  import opened HttpMachine
  import opened HttpShape
  import opened HttpStream
  import opened HttpMarks
  import opened HttpParser

  predicate AllBytes(pieces: seq<string>) { forall i :: 0 <= i < |pieces| ==> pieces[i] != "" && Bytes(pieces[i]) }

  function Last(pieces: seq<string>): string
    requires pieces != []
  {
    pieces[|pieces| - 1]
  }

  function Front(pieces: seq<string>): (front: seq<string>)
    requires pieces != [] && AllBytes(pieces)
    ensures AllBytes(front) && |front| < |pieces|
  {
    pieces[..|pieces| - 1]
  }

  function Concat(pieces: seq<string>): (s: string)
    requires AllBytes(pieces)
    ensures Bytes(s)
    decreases |pieces|
  {
    if pieces == [] then "" else Concat(Front(pieces)) + Last(pieces)
  }

  // One call of http_parser_execute for each piece.
  ghost predicate Fed(v: View, pieces: seq<string>, w: View)
    requires AllBytes(pieces)
    decreases |pieces|
  {
    if pieces == [] then v == w
    else exists n: nat, mid: View :: Fed(v, Front(pieces), mid) && Called(mid, Last(pieces), n, w)
  }

  // ---------- the count of bytes does not matter ----------

  predicate Like(r: Run, s: Run, d: int) { r.p == s.p && r.log == s.log && r.end == s.end && r.count == s.count + d }

  lemma {:induction false} RunShift(r: Run, s: Run, d: int, data: string)
    requires Bytes(data) && Like(r, s, d)
    ensures Like(RunOver(r, data), RunOver(s, data), d)
    decreases |data|
  {
    hide ByteStep, Extend;
    if data != "" { RunShift(r, s, d, data[..|data| - 1]); }
  }

  // ---------- one run for all the pieces ----------

  // What the calls have made of a run that neither met an unspecified byte
  // nor returned early.
  ghost predicate Agrees(r: Run, w: View) {
    && w.p == r.p
    && (r.end.Going? ==> w.errno.OK? && Joined(w.log) == r.log)
    && (r.end.Failed? ==> w.errno == r.end.e && !w.errno.OK? && Loses(Joined(w.log), r.log))
  }

  lemma {:induction false} FedIsRun(v: View, pieces: seq<string>, w: View)
    requires AllBytes(pieces) && Fed(v, pieces, w) && v.errno.OK? && !w.errno.HeaderOverflow?
    requires var r := RunOver(Start(v), Concat(pieces)); r.end.Going? || r.end.Failed?
    ensures Agrees(RunOver(Start(v), Concat(pieces)), w)
    decreases |pieces|
  {
    hide RunOver, Joined, Result, Loses;
    var r := RunOver(Start(v), Concat(pieces));
    if pieces == [] {
      RunNothing(Start(v));
    } else {
      var before, last := Front(pieces), Last(pieces);
      var n: nat, mid: View :| Fed(v, before, mid) && Called(mid, last, n, w);
      var rm := RunOver(Start(v), Concat(before));
      RunSum(Start(v), Concat(before), last);
      if !rm.end.Going? { RunEnded(rm, last); }
      FedIsRun(v, before, mid);
      if rm.end.Going? {
        RunShift(rm, Start(mid), rm.count, last);
        ResultAgrees(Start(mid), last, n, w);
      }
    }
  }

  lemma RunNothing(r: Run)
    ensures RunOver(r, "") == r
  {}

  lemma ResultAgrees(r0: Run, data: string, n: nat, w: View)
    requires Bytes(data) && Result(r0, data, n, w.p, w.errno, w.log) && !w.errno.HeaderOverflow?
    requires var r := RunOver(r0, data); r.end.Going? || r.end.Failed?
    ensures Agrees(RunOver(r0, data), w)
  {
    hide RunOver, Joined, Loses;
  }

  // However the input is cut, the parser ends with the same state, flags,
  // content_length, method and error, and, unless it ends with an error, it
  // has made the same callbacks.
  lemma SameForAllCuts(v: View, a: seq<string>, b: seq<string>, wa: View, wb: View)
    requires AllBytes(a) && AllBytes(b) && Concat(a) == Concat(b) && v.errno.OK?
    requires Fed(v, a, wa) && Fed(v, b, wb) && !wa.errno.HeaderOverflow? && !wb.errno.HeaderOverflow?
    requires var r := RunOver(Start(v), Concat(a)); r.end.Going? || r.end.Failed?
    ensures wa.p == wb.p && wa.errno == wb.errno
    ensures wa.errno.OK? ==> Joined(wa.log) == Joined(wb.log)
  {
    hide RunOver, Joined, Loses, Fed;
    FedIsRun(v, a, wa);
    FedIsRun(v, b, wb);
  }

  // ---------- runs that fail ----------

  // The state in which a run over data refuses the byte it ends with.
  function Refusing(r0: Run, data: string): St
    requires Bytes(data)
  {
    var n := RunOver(r0, data).count - r0.count;
    if 0 <= n <= |data| then RunOver(r0, data[..n]).p.st else r0.p.st
  }

  lemma {:induction false} CountGrows(r0: Run, data: string)
    requires Bytes(data)
    ensures r0.count <= RunOver(r0, data).count <= r0.count + |data|
    ensures RunOver(r0, data).end.Going? ==> RunOver(r0, data).count == r0.count + |data|
    decreases |data|
  {
    hide ByteStep, Extend;
    if data != "" { CountGrows(r0, data[..|data| - 1]); }
  }

  // A failed run stopped at the byte that it counts up to.
  lemma {:induction false} FailedAt(r0: Run, data: string)
    requires Bytes(data) && r0.end.Going? && RunOver(r0, data).end.Failed?
    ensures var n := RunOver(r0, data).count - r0.count;
            && 0 <= n < |data| && RunOver(r0, data[..n]).end.Going? && RunOver(r0, data[..n]).count == r0.count + n
            && RunOver(r0, data[..n + 1]).end == RunOver(r0, data).end
    decreases |data|
  {
    hide ByteStep, Extend;
    CountGrows(r0, data);
    var m := |data| - 1;
    var before := RunOver(r0, data[..m]);
    CountGrows(r0, data[..m]);
    if before.end.Going? {
      assert data[..m + 1] == data;
    } else {
      FailedAt(r0, data[..m]);
      var n := before.count - r0.count;
      assert data[..m][..n] == data[..n];
      assert data[..m][..n + 1] == data[..n + 1];
    }
  }

  // When the run fails at its byte n, a single call has made the callbacks of
  // the run exactly if no item was in hand; a cut right before that byte
  // always brings them out.  So the callbacks of a failing input depend on
  // how it is cut exactly if the refusing state holds an item.
  lemma CutsMatterWhenHolding(v: View, data: string, n: nat, whole: View, cut: View)
    requires v.errno.OK? && Bytes(data) && RunOver(Start(v), data).end.Failed? && 0 < n < |data|
             && RunOver(Start(v), data).count == n
    requires Fed(v, [data], whole) && Fed(v, [data[..n], data[n..]], cut)
    requires !whole.errno.HeaderOverflow? && !cut.errno.HeaderOverflow?
    ensures Joined(cut.log) == RunOver(Start(v), data).log
    ensures Joined(whole.log) == Joined(cut.log) <==> !Holding(Refusing(Start(v), data))
  {
    hide RunOver, Joined, Loses, Holding, Fed;
    FailedAt(Start(v), data);
    FedOnce(v, data, whole);
    FedTwice(v, data[..n], data[n..], cut);
    var k: nat, m: nat, mid: View :| Called(v, data[..n], k, mid) && Called(mid, data[n..], m, cut);
    assert mid.errno.OK?;
    assert data[..n] + data[n..] == data;
    RunSum(Start(v), data[..n], data[n..]);
    RunShift(RunOver(Start(v), data[..n]), Start(mid), n, data[n..]);
  }

  lemma FedOnce(v: View, data: string, w: View)
    requires Bytes(data) && data != "" && Fed(v, [data], w)
    ensures exists n: nat :: Called(v, data, n, w)
  {
    hide Called;
    assert Front([data]) == [];
    var n: nat, mid: View :| Fed(v, [], mid) && Called(mid, data, n, w);
    assert mid == v;
  }

  lemma FedTwice(v: View, a: string, b: string, w: View)
    requires Bytes(a) && a != "" && Bytes(b) && b != "" && Fed(v, [a, b], w)
    ensures exists k: nat, m: nat, mid: View :: Called(v, a, k, mid) && Called(mid, b, m, w)
  {
    hide Called;
    assert Front([a, b]) == [a];
    var m: nat, mid: View :| Fed(v, [a], mid) && Called(mid, b, m, w);
    FedOnce(v, a, mid);
  }

  // Where no item is in hand, no cut loses anything.
  lemma {:induction false} QuietFailure(v: View, pieces: seq<string>, w: View)
    requires AllBytes(pieces) && Fed(v, pieces, w) && v.errno.OK? && !w.errno.HeaderOverflow?
    requires RunOver(Start(v), Concat(pieces)).end.Failed?
    requires !Holding(Refusing(Start(v), Concat(pieces)))
    ensures Joined(w.log) == RunOver(Start(v), Concat(pieces)).log
    decreases |pieces|
  {
    hide RunOver, Joined, Loses, Holding;
    var all := Concat(pieces);
    var r := RunOver(Start(v), all);
    if pieces == [] {
      RunNothing(Start(v));
    } else {
      var before, last := Front(pieces), Last(pieces);
      var n: nat, mid: View :| Fed(v, before, mid) && Called(mid, last, n, w);
      var rm := RunOver(Start(v), Concat(before));
      RunSum(Start(v), Concat(before), last);
      FailedAt(Start(v), all);
      if !rm.end.Going? { RunEnded(rm, last); }
      FedIsRun(v, before, mid);
      if rm.end.Going? {
        RunShift(rm, Start(mid), rm.count, last);
        CountGrows(Start(v), Concat(before));
        FailedAt(Start(mid), last);
        var k := r.count;
        assert all[..k] == Concat(before) + last[..k - rm.count];
        RunSum(Start(v), Concat(before), last[..k - rm.count]);
        RunShift(rm, Start(mid), rm.count, last[..k - rm.count]);
      } else {
        FailedAt(Start(v), Concat(before));
        assert all[..r.count] == Concat(before)[..r.count];
        QuietFailure(v, before, mid);
      }
    }
  }

  // An input whose callbacks depend on the cut: a tab in a URL.
  const TAB_IN_URL := "GET /\t"

  lemma FirstLetter(p: Parser)
    requires p.st.StartReq?
    ensures var s := OneStep(p, 'G'); s.end.Going? && s.p.st.ReqMethod? && s.p.verb == "GET" && s.p.index == 1
  {}

  lemma NextLetter(p: Parser, c: char)
    requires p.st.ReqMethod? && p.verb == "GET" && 0 < p.index < 3 && c == "GET"[p.index]
    ensures var s := OneStep(p, c); s.end.Going? && s.p == p.(index := p.index + 1)
  {}

  lemma AfterVerb(p: Parser)
    requires p.st.ReqMethod? && p.verb == "GET" && p.index == 3
    ensures var s := OneStep(p, ' '); s.end.Going? && s.p.st.ReqSpaces? && s.p.verb == "GET"
  {}

  lemma Slash(p: Parser)
    requires p.st.ReqSpaces? && p.verb == "GET"
    ensures var s := OneStep(p, '/'); s.end.Going? && s.p.st.ReqPath?
  {}

  lemma Tab(p: Parser)
    requires p.st.ReqPath?
    ensures OneStep(p, '\t').end == Failed(InvalidUrl)
  {}

  lemma TabInUrl(p: Parser, log: seq<Event>)
    requires p.st.StartReq?
    ensures Bytes(TAB_IN_URL)
    ensures var r := RunOver(Run(p, log, Going, 0), TAB_IN_URL); r.end == Failed(InvalidUrl) && r.count == 5
    ensures Holding(Refusing(Run(p, log, Going, 0), TAB_IN_URL))
  {
    hide OneStep, RunOver, Feed, Holding;
    var r0 := Run(p, log, Going, 0);
    var d := TAB_IN_URL;
    assert d[..0] == "" && d[..6] == d;
    RunNothing(r0);
    FirstLetter(p);
    TakeByte(r0, d, 0);
    NextLetter(RunOver(r0, d[..1]).p, 'E');
    TakeByte(r0, d, 1);
    NextLetter(RunOver(r0, d[..2]).p, 'T');
    TakeByte(r0, d, 2);
    AfterVerb(RunOver(r0, d[..3]).p);
    TakeByte(r0, d, 3);
    Slash(RunOver(r0, d[..4]).p);
    TakeByte(r0, d, 4);
    Tab(RunOver(r0, d[..5]).p);
    TakeByte(r0, d, 5);
    assert Holding(ReqPath) by { PathHolds(); }
  }

  lemma PathHolds()
    ensures Holding(ReqPath)
  {
    assert Url in Open(ReqPath);
  }

  lemma TakeByte(r0: Run, data: string, i: nat)
    requires Bytes(data) && i < |data| && RunOver(r0, data[..i]).end.Going? && !Looping(RunOver(r0, data[..i]).p.st)
    ensures var r, q := RunOver(r0, data[..i]), RunOver(r0, data[..i + 1]);
            var s := OneStep(r.p, data[i]);
            q.p == s.p && q.end == s.end && q.count == if s.end.Going? || s.end.Stopped? then r.count + 1 else r.count
  {
    hide RunOver, OneStep, Extend;
    RunNext(r0, data, i);
  }
}
