// Runs of the HTTP parser over stretches of text, put together from runs over
// single bytes.
module HttpSegments {
  import opened HttpMachine
  import opened HttpStream

  // From p, the text leads to q with these callbacks.
  ghost predicate Leads(p: Parser, text: string, q: Parser, es: seq<Event>, end: End) {
    && Bytes(text) && (end.Going? || end.Stopped?)
    && forall r: Run :: r.p == p && r.end.Going? ==>
         RunOver(r, text) == Run(q, Extend(r.log, es), end, r.count + |text|)
  }

  lemma LeadsRun(r: Run, text: string, q: Parser, es: seq<Event>, end: End)
    requires Leads(r.p, text, q, es, end) && r.end.Going?
    ensures Bytes(text) && RunOver(r, text) == Run(q, Extend(r.log, es), end, r.count + |text|)
  {
  }

  lemma LeadsNowhere(p: Parser)
    ensures Leads(p, "", p, [], Going)
  {
    hide ByteStep;
  }

  lemma LeadsByte(p: Parser, c: char, q: Parser, es: seq<Event>, end: End)
    requires c < 256 as char && ByteStep(p, c) == Step(q, es, end) && (end.Going? || end.Stopped?)
    ensures Leads(p, [c], q, es, end)
  {
    hide ByteStep, Extend;
    forall r: Run | r.p == p && r.end.Going?
      ensures RunOver(r, [c]) == Run(q, Extend(r.log, es), end, r.count + 1)
    {
      assert [c][..0] == "" && RunOver(r, "") == r;
    }
  }

  lemma LeadsOn(p: Parser, a: string, q: Parser, es: seq<Event>, b: string, z: Parser, fs: seq<Event>, end: End)
    requires Leads(p, a, q, es, Going) && Leads(q, b, z, fs, end)
    ensures Leads(p, a + b, z, es + fs, end)
  {
    hide ByteStep, Extend, RunOver;
    forall r: Run | r.p == p && r.end.Going?
      ensures RunOver(r, a + b) == Run(z, Extend(r.log, es + fs), end, r.count + |a + b|)
    {
      RunSum(r, a, b);
      ExtendSum(r.log, es, fs);
    }
  }

  // The same where one of the two makes no callbacks.
  lemma LeadsAfter(p: Parser, a: string, q: Parser, b: string, z: Parser, fs: seq<Event>, end: End)
    requires Leads(p, a, q, [], Going) && Leads(q, b, z, fs, end)
    ensures Leads(p, a + b, z, fs, end)
  {
    hide Leads;
    LeadsOn(p, a, q, [], b, z, fs, end);
    assert [] + fs == fs;
  }

  lemma LeadsBefore(p: Parser, a: string, q: Parser, es: seq<Event>, b: string, z: Parser)
    requires Leads(p, a, q, es, Going) && Leads(q, b, z, [], Going)
    ensures Leads(p, a + b, z, es, Going)
  {
    hide Leads;
    LeadsOn(p, a, q, es, b, z, [], Going);
    assert es + [] == es;
  }

  // The same where the callbacks continue one item.
  lemma LeadsItem(p: Parser, a: string, q: Parser, k: Kind, x: string, b: string, z: Parser, y: string)
    requires Leads(p, a, q, [Data(k, x)], Going) && Leads(q, b, z, [Data(k, y)], Going)
    ensures Leads(p, a + b, z, [Data(k, x + y)], Going)
  {
    hide ByteStep, Extend, RunOver, Append;
    forall r: Run | r.p == p && r.end.Going?
      ensures RunOver(r, a + b) == Run(z, Extend(r.log, [Data(k, x + y)]), Going, r.count + |a + b|)
    {
      RunSum(r, a, b);
      ExtendOne(r.log, Data(k, x));
      ExtendOne(Extend(r.log, [Data(k, x)]), Data(k, y));
      ExtendOne(r.log, Data(k, x + y));
      AppendTwice(r.log, k, x, y);
    }
  }

  // The callbacks of an item go on into the next ones.
  lemma LeadsItemOn(p: Parser, a: string, q: Parser, k: Kind, x: string, b: string, z: Parser, y: string,
                    fs: seq<Event>, end: End)
    requires Leads(p, a, q, [Data(k, x)], Going) && Leads(q, b, z, [Data(k, y)] + fs, end)
    ensures Leads(p, a + b, z, [Data(k, x + y)] + fs, end)
  {
    hide ByteStep, Extend, RunOver, Append;
    forall r: Run | r.p == p && r.end.Going?
      ensures RunOver(r, a + b) == Run(z, Extend(r.log, [Data(k, x + y)] + fs), end, r.count + |a + b|)
    {
      RunSum(r, a, b);
      ExtendOne(r.log, Data(k, x));
      ExtendSum(Extend(r.log, [Data(k, x)]), [Data(k, y)], fs);
      ExtendOne(Extend(r.log, [Data(k, x)]), Data(k, y));
      ExtendSum(r.log, [Data(k, x + y)], fs);
      ExtendOne(r.log, Data(k, x + y));
      AppendTwice(r.log, k, x, y);
    }
  }

  // p does with the first byte what q does after the callbacks es.
  lemma LeadsLate(p: Parser, q: Parser, es: seq<Event>, text: string, z: Parser, fs: seq<Event>, end: End)
    requires text != "" && text[0] < 256 as char && Leads(q, text, z, fs, end)
    requires var s := ByteStep(q, text[0]); ByteStep(p, text[0]) == Step(s.p, es + s.events, s.end)
    ensures Leads(p, text, z, es + fs, end)
  {
    hide ByteStep, Extend, RunOver;
    forall r: Run | r.p == p && r.end.Going?
      ensures RunOver(r, text) == Run(z, Extend(r.log, es + fs), end, r.count + |text|)
    {
      var c := text[0];
      assert text == [c] + text[1..];
      var r2 := r.(p := q, log := Extend(r.log, es));
      assert RunOver(r, [c]) == RunOver(r2, [c]) by { FirstByte(r, r2, c, es); }
      RunSum(r, [c], text[1..]);
      RunSum(r2, [c], text[1..]);
      ExtendSum(r.log, es, fs);
    }
  }

  lemma FirstByte(r: Run, r2: Run, c: char, es: seq<Event>)
    requires c < 256 as char && r.end.Going? && r2 == r.(p := r2.p, log := Extend(r.log, es))
    requires var s := ByteStep(r2.p, c); ByteStep(r.p, c) == Step(s.p, es + s.events, s.end)
    ensures RunOver(r, [c]) == RunOver(r2, [c])
  {
    hide ByteStep, Extend;
    assert [c][..0] == "" && RunOver(r, "") == r && RunOver(r2, "") == r2;
    ExtendSum(r.log, es, ByteStep(r2.p, c).events);
  }
}
