// The marks that http_parser_execute keeps while it runs over a buffer, and
// the callbacks they stand for.
module HttpMarks {
  import opened HttpMachine
  import opened HttpShape
  import opened HttpStream

  // Where in the buffer each item began, for those whose mark is set.
  type Marks = map<Kind, nat>

  function Piece(marks: Marks, k: Kind, data: string, i: nat): seq<Event>
    requires i <= |data|
  {
    if k in marks && marks[k] < i then [Data(k, data[marks[k]..i])] else []
  }

  // The callbacks that are owed for the bytes before i, in the order in which
  // the end of the buffer makes them.
  function Pending(marks: Marks, data: string, i: nat): seq<Event>
    requires i <= |data|
  {
    Piece(marks, Field, data, i) + Piece(marks, Value, data, i) + Piece(marks, Url, data, i)
      + Piece(marks, Body, data, i)
    + Piece(marks, Status, data, i)
  }

  function Shown(log: seq<Event>, marks: Marks, data: string, i: nat): seq<Event>
    requires i <= |data|
  {
    Joined(log + Pending(marks, data, i))
  }

  // At most one mark is set, as the source asserts, and it is the one that
  // the state calls for.
  predicate Fits(marks: Marks, s: St, i: nat) {
    && (if Open(s) != {} then marks.Keys == Open(s) else marks.Keys <= if BodyState(s) then {Body} else {})
    && (forall k :: k in marks ==> marks[k] < i || marks[k] == 0)
    && (Body in marks ==> marks[Body] < i)
    && (s.ChunkDataAlmostDone? && i > 0 ==> Body in marks)
  }

  // Some bytes before i wait for their callback.
  predicate Owes(marks: Marks, i: nat) { exists k :: k in marks && marks[k] < i }

  predicate Single(marks: Marks) { forall a, b :: a in marks && b in marks ==> a == b }

  lemma PendingOne(marks: Marks, k: Kind, data: string, i: nat)
    requires i <= |data| && marks.Keys <= {k}
    ensures Pending(marks, data, i) == Piece(marks, k, data, i)
  {
    hide Piece;
    forall o: Kind | o != k ensures Piece(marks, o, data, i) == [] { NoPiece(marks, o, data, i); }
    var x := Piece(marks, k, data, i);
    if k.Field? { assert [] + x == x; }
  }

  lemma NoPiece(marks: Marks, k: Kind, data: string, i: nat)
    requires i <= |data| && k !in marks
    ensures Piece(marks, k, data, i) == []
  {}

  lemma ShownNone(log: seq<Event>, marks: Marks, data: string, i: nat)
    requires i <= |data| && marks.Keys == {}
    ensures Shown(log, marks, data, i) == Joined(log)
  {
    PendingOne(marks, Field, data, i);
    assert log + [] == log;
  }

  lemma ShownOne(log: seq<Event>, marks: Marks, k: Kind, data: string, i: nat)
    requires i <= |data| && marks.Keys == {k} && marks[k] <= i
    ensures Shown(log, marks, data, i) == if marks[k] < i then Append(Joined(log), Data(k, data[marks[k]..i]))
            else Joined(log)
  {
    PendingOne(marks, k, data, i);
    if marks[k] < i { JoinedMore(log, Data(k, data[marks[k]..i])); } else { assert log + [] == log; }
  }

  // The next byte of the item that is marked.
  lemma ShownGrows(log: seq<Event>, marks: Marks, k: Kind, data: string, i: nat)
    requires i < |data| && marks.Keys == {k} && marks[k] <= i
    ensures Shown(log, marks, data, i + 1) == Append(Shown(log, marks, data, i), Data(k, [data[i]]))
  {
    hide Joined, Append, Pending, Shown;
    ShownOne(log, marks, k, data, i);
    ShownOne(log, marks, k, data, i + 1);
    var m := marks[k];
    if m < i {
      AppendTwice(Joined(log), k, data[m..i], [data[i]]);
      assert data[m..i] + [data[i]] == data[m..i + 1];
    } else {
      assert data[m..i + 1] == [data[i]];
    }
  }

  // The callback at the end of an item.
  lemma ShownFlush(log: seq<Event>, marks: Marks, k: Kind, data: string, i: nat)
    requires i <= |data| && marks.Keys == {k} && marks[k] <= i
    ensures Joined(log + [Data(k, data[marks[k]..i])]) == Append(Shown(log, marks, data, i), Data(k, ""))
    ensures marks[k] < i ==> Joined(log + [Data(k, data[marks[k]..i])]) == Shown(log, marks, data, i)
  {
    hide Joined, Append, Pending, Shown;
    ShownOne(log, marks, k, data, i);
    JoinedMore(log, Data(k, data[marks[k]..i]));
    if marks[k] < i { AppendNothing(Joined(log), k, data[marks[k]..i]); } else { assert data[marks[k]..i] == ""; }
  }

  // ---------- MARK, CALLBACK_DATA and CALLBACK_NOTIFY ----------

  datatype Book = Book(log: seq<Event>, marks: Marks)

  function Do(b: Book, a: Act, data: string, i: nat, cl: nat): Book
    requires i <= |data|
  {
    match a
    case Mark(k) => if k in b.marks then b else b.(marks := b.marks[k := i])
    case Flush(k) => if k in b.marks && b.marks[k] <= i then Book(b.log + [Data(k, data[b.marks[k]..i])],
      b.marks - {k}) else b
    case Notify(n) => b.(log := b.log + [Noted(n, cl)])
  }

  function DoAll(b: Book, acts: seq<Act>, data: string, i: nat, cl: nat): Book
    requires i <= |data|
    decreases |acts|
  {
    if acts == [] then b else DoAll(Do(b, acts[0], data, i, cl), acts[1..], data, i, cl)
  }

  function Seen(b: Book, data: string, i: nat): seq<Event>
    requires i <= |data|
  {
    Shown(b.log, b.marks, data, i)
  }

  lemma DoOne(b: Book, a: Act, data: string, i: nat, cl: nat)
    requires i <= |data|
    ensures DoAll(b, [a], data, i, cl) == Do(b, a, data, i, cl)
  {
    assert [a][1..] == [];
  }

  lemma ToldOne(a: Act, cl: nat)
    ensures Told([a], cl) == Tell(a, cl)
  {
    assert [a][1..] == [];
    assert Told([], cl) == [];
  }

  lemma NotifySeen(b: Book, n: Note, data: string, i: nat, cl: nat)
    requires i <= |data| && b.marks.Keys == {}
    ensures Seen(Do(b, Notify(n), data, i, cl), data, i) == Extend(Seen(b, data, i), [Noted(n, cl)])
  {
    hide Joined, Append, Extend, Pending, Shown;
    ShownNone(b.log, b.marks, data, i);
    ShownNone(b.log + [Noted(n, cl)], b.marks, data, i);
    JoinedMore(b.log, Noted(n, cl));
    ExtendOne(Joined(b.log), Noted(n, cl));
  }

  lemma MarkSeen(b: Book, k: Kind, data: string, i: nat, cl: nat)
    requires i <= |data| && b.marks.Keys == {}
    ensures var d := Do(b, Mark(k), data, i, cl);
            d.log == b.log && d.marks.Keys == {k} && d.marks[k] == i && Seen(d, data, i) == Seen(b, data, i)
  {
    hide Joined, Pending, Shown;
    ShownNone(b.log, b.marks, data, i);
    ShownOne(b.log, b.marks[k := i], k, data, i);
  }

  lemma FlushSeen(b: Book, k: Kind, data: string, i: nat, cl: nat)
    requires i <= |data| && b.marks.Keys == {k} && b.marks[k] <= i
    ensures var d := Do(b, Flush(k), data, i, cl);
            d.marks.Keys == {} && Seen(d, data, i) == Append(Seen(b, data, i), Data(k, ""))
            && (b.marks[k] < i ==> Seen(d, data, i) == Seen(b, data, i))
  {
    hide Joined, Append, Pending, Shown;
    ShownFlush(b.log, b.marks, k, data, i);
    var d := Do(b, Flush(k), data, i, cl);
    assert d.marks.Keys == {};
    ShownNone(d.log, d.marks, data, i);
  }

  // An empty value: marked and reported at once.
  lemma EmptyValueSeen(b: Book, data: string, i: nat, cl: nat)
    requires i <= |data| && b.marks.Keys == {}
    ensures var d := DoAll(b, [Mark(Value), Flush(Value)], data, i, cl);
            d.marks.Keys == {} && Seen(d, data, i) == Extend(Seen(b, data, i), Told([Mark(Value), Flush(Value)], cl))
  {
    hide Seen, Append, Extend, Do;
    var acts := [Mark(Value), Flush(Value)];
    assert acts[1..] == [Flush(Value)];
    var m := Do(b, Mark(Value), data, i, cl);
    MarkSeen(b, Value, data, i, cl);
    DoOne(m, Flush(Value), data, i, cl);
    FlushSeen(m, Value, data, i, cl);
    ToldOne(Flush(Value), cl);
    assert [] + [Data(Value, "")] == [Data(Value, "")];
    ExtendOne(Seen(b, data, i), Data(Value, ""));
  }

  // A byte outside of any item.
  lemma NothingSeen(b: Book, s: St, data: string, i: nat)
    requires i < |data| && b.marks.Keys == {} && Calm(s)
    ensures Fits(b.marks, s, i + 1) && Seen(b, data, i + 1) == Extend(Seen(b, data, i), Item(s, data[i]))
  {
    hide Joined, Append, Pending, Shown;
    ShownNone(b.log, b.marks, data, i);
    ShownNone(b.log, b.marks, data, i + 1);
    assert Item(s, data[i]) == [];
  }

  // A byte of the item that is marked.
  lemma ItemSeen(b: Book, k: Kind, s: St, data: string, i: nat)
    requires i < |data| && b.marks.Keys == {k} && b.marks[k] <= i && Open(s) == {k}
    ensures Fits(b.marks, s, i + 1) && Seen(b, data, i + 1) == Extend(Seen(b, data, i), Item(s, data[i]))
  {
    hide Joined, Append, Extend, Pending, Shown;
    ShownGrows(b.log, b.marks, k, data, i);
    ItemOf(s, k, data[i]);
    ExtendOne(Seen(b, data, i), Data(k, [data[i]]));
  }

  lemma ItemOf(s: St, k: Kind, c: char)
    requires Open(s) == {k}
    ensures Item(s, c) == [Data(k, [c])] && !k.Body?
  {
    assert k in Open(s);
  }

  lemma QuietDone(s: St, o: Out, b: Book, data: string, i: nat)
    requires i < |data| && Shape(s, o) && Fits(b.marks, s, i) && !Looping(s) && o.acts == [] && !o.flow.Fail?
    ensures o.flow.Advance? ==> Fits(b.marks, o.p.st, i + 1)
                                && Seen(b, data, i + 1) == Extend(Seen(b, data, i), Item(o.p.st, data[i]))
    ensures o.flow.Again? || o.flow.Stop? ==> b.marks.Keys == {}
  {
    hide Seen, Extend, Append, Do, DoAll, Told, Item, Open;
    if Open(s) == {} {
      assert b.marks.Keys == {};
      NothingSeen(b, o.p.st, data, i);
    } else {
      assert o.flow.Advance? && Open(o.p.st) == Open(s);
      OpenOne(s);
      var k :| Open(s) == {k};
      assert k in b.marks;
      ItemSeen(b, k, o.p.st, data, i);
    }
  }

  lemma FitsSingle(marks: Marks, s: St, i: nat)
    requires Fits(marks, s, i)
    ensures Single(marks)
  {
    if Open(s) != {} {
      OpenOne(s);
      var k :| Open(s) == {k};
      assert marks.Keys == {k};
    } else {
      assert marks.Keys <= {Body};
    }
  }

  lemma QuietBody(s: St)
    requires !Looping(s)
    ensures BodyState(s) ==> s.ChunkDataAlmostDone?
  {}

  lemma FitsOwes(marks: Marks, s: St, i: nat)
    requires Fits(marks, s, i) && (BodyState(s) ==> s.ChunkDataAlmostDone?)
    ensures Owes(marks, i) <==> i > 0 && Holding(s)
  {
    if Open(s) != {} {
      OpenOne(s);
      var k :| Open(s) == {k};
      assert k in marks;
    }
  }

  lemma OpenOne(s: St)
    requires Open(s) != {}
    ensures exists k :: Open(s) == {k}
  {
    if UrlState(s) { assert Open(s) == {Url}; }
    else if s.ResStatus? { assert Open(s) == {Status}; }
    else if s.HeaderField? { assert Open(s) == {Field}; }
    else { assert Open(s) == {Value}; }
  }

  lemma NoActs(b: Book, data: string, i: nat, cl: nat)
    requires i <= |data|
    ensures DoAll(b, [], data, i, cl) == b && Extend(Seen(b, data, i), Told([], cl)) == Seen(b, data, i)
  {}

  lemma FlushTold(b: Book, k: Kind, s: St, data: string, i: nat, cl: nat)
    requires i <= |data| && b.marks.Keys == {k} && b.marks[k] <= i && Open(s) == {k}
    ensures var d := DoAll(b, [Flush(k)], data, i, cl);
            d.marks.Keys == {} && Seen(d, data, i) == Extend(Seen(b, data, i), Told([Flush(k)], cl))
  {
    hide Seen, Append, Extend, Do;
    ItemOf(s, k, ' ');
    DoOne(b, Flush(k), data, i, cl);
    FlushSeen(b, k, data, i, cl);
    ToldOne(Flush(k), cl);
    ExtendOne(Seen(b, data, i), Data(k, ""));
  }

  lemma BodyTold(b: Book, data: string, i: nat, cl: nat)
    requires i <= |data| && b.marks.Keys <= {Body} && (Body in b.marks ==> b.marks[Body] < i)
    ensures var d := DoAll(b, [Flush(Body)], data, i, cl);
            d.marks.Keys == {} && Seen(d, data, i) == Extend(Seen(b, data, i), Told([Flush(Body)], cl))
  {
    hide Seen, Append, Do;
    DoOne(b, Flush(Body), data, i, cl);
    ToldOne(Flush(Body), cl);
    if Body in b.marks {
      assert b.marks.Keys == {Body};
      FlushSeen(b, Body, data, i, cl);
    } else {
      NoFlush(b, data, i, cl);
    }
  }

  lemma NoFlush(b: Book, data: string, i: nat, cl: nat)
    requires i <= |data| && Body !in b.marks
    ensures Do(b, Flush(Body), data, i, cl) == b
  {}

  lemma MarkTold(b: Book, k: Kind, data: string, i: nat, cl: nat)
    requires i <= |data| && b.marks.Keys == {}
    ensures var d := DoAll(b, [Mark(k)], data, i, cl);
            d.marks.Keys == {k} && d.marks[k] == i && Seen(d, data, i) == Extend(Seen(b, data, i), Told([Mark(k)], cl))
  {
    hide Seen, Append, Do;
    DoOne(b, Mark(k), data, i, cl);
    ToldOne(Mark(k), cl);
    MarkSeen(b, k, data, i, cl);
  }

  lemma NotifyTold(b: Book, n: Note, data: string, i: nat, cl: nat)
    requires i <= |data| && b.marks.Keys == {}
    ensures var d := DoAll(b, [Notify(n)], data, i, cl);
            d.marks.Keys == {} && Seen(d, data, i) == Extend(Seen(b, data, i), Told([Notify(n)], cl))
  {
    hide Seen, Append, Extend;
    DoOne(b, Notify(n), data, i, cl);
    ToldOne(Notify(n), cl);
    NotifySeen(b, n, data, i, cl);
  }

  // What the switch does to the marks and the log is what the run tells of it.
  ghost predicate IsTold(s: St, o: Out, b: Book, data: string, i: nat)
    requires i < |data|
  {
    var d := DoAll(b, o.acts, data, i, o.p.cl);
    && Seen(d, data, i) == Extend(Seen(b, data, i), Told(o.acts, o.p.cl))
    && (o.flow.Advance? ==> Fits(d.marks, o.p.st, i + 1)
                            && Seen(d, data, i + 1) == Extend(Seen(d, data, i), Item(o.p.st, data[i])))
    && (o.flow.Again? || o.flow.Stop? ==> d.marks.Keys == {})
    && Single(d.marks)
    && (o.flow.Fail? ==> (Owes(d.marks, i) <==> i > 0 && Holding(s)))
  }

  lemma QuietTold(s: St, o: Out, b: Book, data: string, i: nat)
    requires i < |data| && Shape(s, o) && Fits(b.marks, s, i) && !Looping(s) && o.acts == []
    ensures IsTold(s, o, b, data, i)
  {
    hide Seen, Extend, Append, Do, DoAll, Told, Item, Open, Looping, BodyState, Shape, Fits, Single, Holding, Owes;
    NoActs(b, data, i, o.p.cl);
    QuietBody(s);
    FitsSingle(b.marks, s, i);
    FitsOwes(b.marks, s, i);
    if !o.flow.Fail? { QuietDone(s, o, b, data, i); }
  }

  lemma EndTold(s: St, o: Out, b: Book, data: string, i: nat)
    requires i < |data| && Continues(s, o) && Open(s) != {} && Fits(b.marks, s, i) && o.acts != []
    ensures IsTold(s, o, b, data, i)
  {
    hide Seen, Extend, Append, Do, DoAll, Told, Item, Open, Looping;
    var k := o.acts[0].k;
    assert o.acts == [Flush(k)] && Open(s) == {k};
    FlushTold(b, k, s, data, i, o.p.cl);
    NothingSeen(DoAll(b, o.acts, data, i, o.p.cl), o.p.st, data, i);
  }

  lemma ChunkTold(s: St, o: Out, b: Book, data: string, i: nat)
    requires i < |data| && EndsChunk(s, o) && Fits(b.marks, s, i) && o.acts != []
    ensures IsTold(s, o, b, data, i)
  {
    hide Seen, Extend, Append, Do, DoAll, Told, Item;
    BodyTold(b, data, i, o.p.cl);
    NothingSeen(DoAll(b, o.acts, data, i, o.p.cl), o.p.st, data, i);
  }

  lemma BeginTold(s: St, o: Out, b: Book, data: string, i: nat)
    requires i < |data| && Begins(s, o) && b.marks.Keys == {}
    ensures IsTold(s, o, b, data, i)
  {
    hide Seen, Extend, Append, Do, DoAll, Told, Item, Open, Looping;
    var k := o.acts[0].k;
    assert o.acts == [Mark(k)];
    MarkTold(b, k, data, i, o.p.cl);
    if o.flow.Advance? { ItemSeen(DoAll(b, o.acts, data, i, o.p.cl), k, o.p.st, data, i); }
  }

  lemma PlainTold(s: St, o: Out, b: Book, data: string, i: nat)
    requires i < |data| && Plain(s, o) && b.marks.Keys == {} && o.acts != []
    ensures IsTold(s, o, b, data, i)
  {
    hide Seen, Extend, Append, Do, DoAll, Told, Item, Open, Looping;
    if |o.acts| == 1 {
      var n := o.acts[0].n;
      assert o.acts == [Notify(n)];
      NotifyTold(b, n, data, i, o.p.cl);
    } else {
      EmptyValueSeen(b, data, i, o.p.cl);
    }
    if o.flow.Advance? { NothingSeen(DoAll(b, o.acts, data, i, o.p.cl), o.p.st, data, i); }
  }

  lemma DoneIsTold(s: St, o: Out, b: Book, data: string, i: nat)
    requires i < |data| && Shape(s, o) && Fits(b.marks, s, i) && !Looping(s)
    ensures IsTold(s, o, b, data, i)
  {
    hide Seen, Extend, Append, Do, DoAll, Told, Item, Open, IsTold;
    if o.acts == [] {
      QuietTold(s, o, b, data, i);
    } else if Open(s) != {} {
      EndTold(s, o, b, data, i);
    } else if s.ChunkDataAlmostDone? {
      ChunkTold(s, o, b, data, i);
    } else {
      assert b.marks.Keys == {};
      if Begins(s, o) { BeginTold(s, o, b, data, i); } else { PlainTold(s, o, b, data, i); }
    }
  }
}
