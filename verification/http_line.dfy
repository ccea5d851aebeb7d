// The first line of a message, as the HTTP parser reads it.
module HttpLine {
  import opened HttpMachine
  import opened HttpShape
  import opened HttpStream
  import opened HttpSegments
  import HttpMessage

  // ---------- single bytes ----------

  // A state of the switch takes the byte.
  lemma Takes(p: Parser, c: char, q: Parser, acts: seq<Act>)
    requires c < 256 as char && !Looping(p.st) && OneByte(p, c) == Out(q, acts, Advance)
    ensures Leads(p, [c], q, Told(acts, q.cl) + Item(q.st, c), Going)
  {
    hide OneByte, Told, Item;
    LeadsByte(p, c, q, Told(acts, q.cl) + Item(q.st, c), Going);
  }

  lemma TakesQuietly(p: Parser, c: char, q: Parser)
    requires c < 256 as char && !Looping(p.st) && OneByte(p, c) == Out(q, [], Advance) && Item(q.st, c) == []
    ensures Leads(p, [c], q, [], Going)
  {
    hide OneByte, Item;
    Takes(p, c, q, []);
    assert Told([], q.cl) == [];
  }

  lemma ToldOne(a: Act, cl: nat)
    ensures Told([a], cl) == Tell(a, cl)
  {
    assert [a][1..] == [] && Told([], cl) == [];
    assert Tell(a, cl) + [] == Tell(a, cl);
  }

  // ---------- methods ----------

  // A parser that waits for a message.
  predicate Waits(p: Parser) {
    (p.st.StartReq? && p.ty == Request) || (p.st.StartReqOrRes? && p.ty == Both) || (p.st.StartRes? && p.ty == Response)
  }

  // The parser within the method: i characters of it are read, and verb is its guess.
  function InVerb(p: Parser, verb: string, i: nat): Parser {
    p.(ty := Request, flags := NO_FLAGS, cl := ULLONG_MAX, verb := verb, index := i, st := ReqMethod)
  }

  lemma VerbBegins(p: Parser, c: char)
    requires Waits(p) && !p.st.StartRes? && FirstVerb(c) != "" && (c == 'H' ==> p.st.StartReq?)
    ensures Leads(p, [c], InVerb(p, FirstVerb(c), 1), [Noted(MessageBegin, ULLONG_MAX)], Going)
  {
    hide *;
    var q, begin := InVerb(p, FirstVerb(c), 1), Notify(MessageBegin);
    WaitsFor(p);
    FirstVerbAlpha(c);
    if p.st.StartReq? {
      VerbStep(p, c);
    } else {
      BothStep(p, c);
      VerbStep(p.(ty := Request, flags := NO_FLAGS, cl := ULLONG_MAX, st := StartReq), c);
      SameVerb(p, c);
    }
    LeadsByte(p, c, q, [Noted(MessageBegin, ULLONG_MAX)], Going);
  }

  lemma WaitsFor(p: Parser)
    requires Waits(p) && !p.st.StartRes?
    ensures !Looping(p.st) && ((p.st.StartReq? && p.ty == Request) || p.st.StartReqOrRes?)
  {
  }

  lemma SameVerb(p: Parser, c: char)
    ensures InVerb(p.(ty := Request, flags := NO_FLAGS, cl := ULLONG_MAX, st := StartReq), FirstVerb(c), 1)
            == InVerb(p, FirstVerb(c), 1)
  {
    hide FirstVerb;
  }

  lemma VerbStep(p: Parser, c: char)
    requires p.st.StartReq? && p.ty == Request && FirstVerb(c) != "" && c < 256 as char
    ensures ByteStep(p, c) == Step(InVerb(p, FirstVerb(c), 1), [Noted(MessageBegin, ULLONG_MAX)], Going)
  {
    VerbOpens(p, c);
    ToldOne(Notify(MessageBegin), ULLONG_MAX);
    hide OneByte, FirstVerb, Told, FieldChar, ValueStep;
    assert [Noted(MessageBegin, ULLONG_MAX)] + [] == [Noted(MessageBegin, ULLONG_MAX)];
  }

  // Not the beginning of a response: the byte is looked at again.
  lemma BothStep(p: Parser, c: char)
    requires p.st.StartReqOrRes? && FirstVerb(c) != "" && c != 'H' && c < 256 as char
    ensures ByteStep(p, c) == ByteStep(p.(ty := Request, flags := NO_FLAGS, cl := ULLONG_MAX, st := StartReq), c)
  {
    var p1 := p.(ty := Request, flags := NO_FLAGS, cl := ULLONG_MAX, st := StartReq);
    FirstVerbAlpha(c);
    hide FirstVerb;
    assert OneByte(p, c) == Out(p1, [], Again);
    hide OneByte, FieldChar, ValueStep;
    var next := OneStep(p1, c);
    assert OneStep(p, c) == Step(next.p, [] + next.events, next.end);
    assert [] + next.events == next.events;
  }

  lemma VerbOpens(p: Parser, c: char)
    requires p.st.StartReq? && p.ty == Request && FirstVerb(c) != ""
    ensures OneByte(p, c) == Out(InVerb(p, FirstVerb(c), 1), [Notify(MessageBegin)], Advance)
  {
    FirstVerbAlpha(c);
    hide FirstVerb, IsAlpha;
  }

  lemma FirstVerbAlpha(c: char)
    requires FirstVerb(c) != ""
    ensures IsAlpha(c) && c != CR && c != LF && c < 256 as char
  {
  }

  // HEAD may turn out not to be the beginning of a response.
  lemma HeadBegins(p: Parser)
    requires p.st.StartReqOrRes? && p.ty == Both
    ensures Leads(p, "HE", InVerb(p, "HEAD", 2), [Noted(MessageBegin, ULLONG_MAX)], Going)
  {
    var p1 := BothBegun(p);
    var q := InVerb(p, "HEAD", 2);
    BothBegins(p);
    assert OneByte(p1, 'E') == Out(q, [], Advance);
    hide OneByte;
    TakesQuietly(p1, 'E', q);
    hide Leads;
    LeadsOn(p, "H", p1, [Noted(MessageBegin, ULLONG_MAX)], "E", q, [], Going);
    assert "H" + "E" == "HE";
  }

  // An H may begin either kind of message.
  function BothBegun(p: Parser): Parser { p.(flags := NO_FLAGS, cl := ULLONG_MAX, st := ResOrRespH) }

  lemma BothBegins(p: Parser)
    requires p.st.StartReqOrRes?
    ensures Leads(p, "H", BothBegun(p), [Noted(MessageBegin, ULLONG_MAX)], Going)
  {
    var begin := Notify(MessageBegin);
    ToldOne(begin, ULLONG_MAX);
    assert OneByte(p, 'H') == Out(BothBegun(p), [begin], Advance);
    hide OneByte;
    Takes(p, 'H', BothBegun(p), [begin]);
  }

  lemma VerbMatches(p: Parser, verb: string, i: nat)
    requires i < |verb| && IsVerb(verb)
    ensures Leads(InVerb(p, verb, i), [verb[i]], InVerb(p, verb, i + 1), [], Going)
  {
    var a, z := InVerb(p, verb, i), InVerb(p, verb, i + 1);
    assert OneByte(a, verb[i]) == Out(z, [], Advance);
    hide OneByte;
    TakesQuietly(a, verb[i], z);
  }

  predicate IsVerb(s: string) { forall i :: 0 <= i < |s| ==> IsAlpha(s[i]) || s[i] == '-' }

  lemma VerbTurns(p: Parser, verb: string, i: nat, c: char, other: string)
    requires i < |verb| && c != verb[i] && c < 256 as char && IsVerb(verb)
    requires if c == '-' then verb == "MKCOL" && i == 1 && other == "M-SEARCH"
             else IsAlpha(c) && other != "" && OtherVerb(verb, i, c) == other
    ensures Leads(InVerb(p, verb, i), [c], InVerb(p, other, i + 1), [], Going)
  {
    hide OtherVerb;
    var a, z := InVerb(p, verb, i), InVerb(p, other, i + 1);
    assert OneByte(a, c) == Out(z, [], Advance);
    hide OneByte;
    TakesQuietly(a, c, z);
  }

  // The parser after the method and a space.
  function AfterVerb(p: Parser, verb: string): Parser { InVerb(p, verb, |verb| + 1).(st := ReqSpaces) }

  lemma VerbEnds(p: Parser, verb: string)
    ensures Leads(InVerb(p, verb, |verb|), [' '], AfterVerb(p, verb), [], Going)
  {
    var a, z := InVerb(p, verb, |verb|), AfterVerb(p, verb);
    assert OneByte(a, ' ') == Out(z, [], Advance);
    hide OneByte;
    TakesQuietly(a, ' ', z);
  }

  // Once the guess is right the rest of the method matches.
  lemma {:induction false} VerbRest(p: Parser, verb: string, i: nat)
    requires i <= |verb| && IsVerb(verb)
    ensures Leads(InVerb(p, verb, i), verb[i..] + " ", AfterVerb(p, verb), [], Going)
    decreases |verb| - i
  {
    hide *;
    var a, z := InVerb(p, verb, i), AfterVerb(p, verb);
    if i == |verb| {
      VerbEnds(p, verb);
      assert verb[i..] + " " == [' '];
    } else {
      VerbMatches(p, verb, i);
      VerbRest(p, verb, i + 1);
      LeadsAfter(a, [verb[i]], InVerb(p, verb, i + 1), verb[i + 1..] + " ", z, [], Going);
      assert verb[i..] + " " == [verb[i]] + (verb[i + 1..] + " ");
    }
  }

  // A guess that is right up to position j, where another one takes its place.
  lemma {:induction false} VerbOnto(p: Parser, verb: string, i: nat, j: nat, c: char, other: string)
    requires i <= j < |verb| && c != verb[j] && IsVerb(verb) && c < 256 as char
    requires if c == '-' then verb == "MKCOL" && j == 1 && other == "M-SEARCH"
             else IsAlpha(c) && other != "" && OtherVerb(verb, j, c) == other
    ensures Leads(InVerb(p, verb, i), verb[i..j] + [c], InVerb(p, other, j + 1), [], Going)
    decreases j - i
  {
    hide *;
    var a, z := InVerb(p, verb, i), InVerb(p, other, j + 1);
    if i == j {
      VerbTurns(p, verb, j, c, other);
      assert verb[i..j] + [c] == [c];
    } else {
      VerbMatches(p, verb, i);
      VerbOnto(p, verb, i + 1, j, c, other);
      LeadsAfter(a, [verb[i]], InVerb(p, verb, i + 1), verb[i + 1..j] + [c], z, [], Going);
      assert verb[i..j] + [c] == [verb[i]] + (verb[i + 1..j] + [c]);
    }
  }

  // The methods that the first letter tells.
  predicate Straight(verb: string) { verb != "" && IsVerb(verb) && FirstVerb(verb[0]) == verb }

  // The methods that take the place of another one at a position.
  predicate Turned(verb: string, from: string, at: nat) {
    && IsVerb(verb) && IsVerb(from) && 0 < at < |from| && at < |verb| && verb[..at] == from[..at]
       && verb[at] != from[at]
    && if verb[at] == '-' then from == "MKCOL" && at == 1 && verb == "M-SEARCH"
       else IsAlpha(verb[at]) && OtherVerb(from, at, verb[at]) == verb
  }

  lemma MethodsToD()
    ensures Straight("ACL") && Straight("BIND") && Straight("CONNECT") && Straight("DELETE")
  {
  }

  lemma MethodsToM()
    ensures Straight("GET") && Straight("HEAD") && Straight("LOCK") && Straight("MKCOL")
  {
  }

  lemma MethodsToR()
    ensures Straight("NOTIFY") && Straight("OPTIONS") && Straight("POST") && Straight("REPORT")
  {
  }

  lemma MethodsToU()
    ensures Straight("SUBSCRIBE") && Straight("TRACE") && Straight("UNLOCK")
  {
  }

  lemma TurnsOfPost()
    ensures Turned("PUT", "POST", 1) && Turned("PATCH", "POST", 1) && Turned("PROPFIND", "POST", 1)
  {
  }

  lemma TurnsOfConnect()
    ensures Turned("CHECKOUT", "CONNECT", 1) && Turned("COPY", "CONNECT", 2)
  {
  }

  lemma TurnsOfMkcol()
    ensures Turned("MOVE", "MKCOL", 1) && Turned("MERGE", "MKCOL", 1) && Turned("M-SEARCH", "MKCOL", 1)
  {
  }

  lemma LongTurnsOfMkcol()
    ensures Turned("MKACTIVITY", "MKCOL", 2) && Turned("MKCALENDAR", "MKCOL", 3)
  {
  }

  lemma OtherTurns()
    ensures Turned("SEARCH", "SUBSCRIBE", 1) && Turned("REBIND", "REPORT", 2) && Turned("LINK", "LOCK", 1)
  {
  }

  lemma TurnsOfUnlock()
    ensures Turned("UNSUBSCRIBE", "UNLOCK", 2) && Turned("UNBIND", "UNLOCK", 2) && Turned("UNLINK", "UNLOCK", 3)
  {
  }

  lemma SecondTurns()
    ensures Turned("PROPPATCH", "PROPFIND", 4) && Turned("PURGE", "PUT", 2)
  {
  }

  // A method is told by its first letter, or after one or two turns.
  ghost predicate Known(verb: string) {
    || Straight(verb)
    || (exists from, at :: Turned(verb, from, at) && Straight(from))
    || exists from, at, first, k :: Turned(verb, from, at) && Turned(from, first, k) && k < at && Straight(first)
  }

  lemma KnownStraight(verb: string)
    requires Straight(verb)
    ensures Known(verb)
  {
  }

  lemma KnownTurned(verb: string, from: string, at: nat)
    requires Turned(verb, from, at) && Straight(from)
    ensures Known(verb)
  {
  }

  lemma MethodKnown(verb: string)
    requires verb in HttpMessage.METHODS
    ensures Known(verb)
  {
    hide Straight, Turned, Known;
    MethodsToD();
    MethodsToM();
    MethodsToR();
    MethodsToU();
    TurnsOfPost();
    TurnsOfConnect();
    TurnsOfMkcol();
    LongTurnsOfMkcol();
    OtherTurns();
    TurnsOfUnlock();
    SecondTurns();
    KnownStraight("ACL");
    KnownStraight("BIND");
    KnownStraight("CONNECT");
    KnownStraight("DELETE");
    KnownStraight("GET");
    KnownStraight("HEAD");
    KnownStraight("LOCK");
    KnownStraight("MKCOL");
    KnownStraight("NOTIFY");
    KnownStraight("OPTIONS");
    KnownStraight("POST");
    KnownStraight("REPORT");
    KnownStraight("SUBSCRIBE");
    KnownStraight("TRACE");
    KnownStraight("UNLOCK");
    KnownTurned("PUT", "POST", 1);
    KnownTurned("PATCH", "POST", 1);
    KnownTurned("PROPFIND", "POST", 1);
    KnownTurned("CHECKOUT", "CONNECT", 1);
    KnownTurned("COPY", "CONNECT", 2);
    KnownTurned("MOVE", "MKCOL", 1);
    KnownTurned("MERGE", "MKCOL", 1);
    KnownTurned("M-SEARCH", "MKCOL", 1);
    KnownTurned("MKACTIVITY", "MKCOL", 2);
    KnownTurned("MKCALENDAR", "MKCOL", 3);
    KnownTurned("SEARCH", "SUBSCRIBE", 1);
    KnownTurned("REBIND", "REPORT", 2);
    KnownTurned("LINK", "LOCK", 1);
    KnownTurned("UNSUBSCRIBE", "UNLOCK", 2);
    KnownTurned("UNBIND", "UNLOCK", 2);
    KnownTurned("UNLINK", "UNLOCK", 3);
    KnownTwice("PROPPATCH", "PROPFIND", 4, "POST", 1);
    KnownTwice("PURGE", "PUT", 2, "POST", 1);
  }

  lemma KnownTwice(verb: string, from: string, at: nat, first: string, k: nat)
    requires Turned(verb, from, at) && Turned(from, first, k) && k < at && Straight(first)
    ensures Known(verb)
  {
  }

  lemma SameSlice(a: string, b: string, i: nat, j: nat)
    requires i <= j <= |a| && j <= |b| && a[..j] == b[..j]
    ensures a[i..j] == b[i..j]
  {
    assert a[i..j] == a[..j][i..] && b[i..j] == b[..j][i..];
  }

  lemma SplitText(s: string, i: nat, at: nat)
    requires i <= at < |s|
    ensures s[i..] + " " == s[i..at] + [s[at]] + (s[at + 1..] + " ")
  {
    assert s[i..] == s[i..at] + [s[at]] + s[at + 1..];
  }

  // From the right guess up to a position: another method takes its place.
  lemma VerbOnce(p: Parser, i: nat, from: string, at: nat, verb: string)
    requires Turned(verb, from, at) && i <= at
    ensures Leads(InVerb(p, from, i), verb[i..] + " ", AfterVerb(p, verb), [], Going)
  {
    hide *;
    var a, c, z := InVerb(p, from, i), InVerb(p, verb, at + 1), AfterVerb(p, verb);
    TurnFacts(verb, from, at);
    SameSlice(verb, from, i, at);
    VerbOnto(p, from, i, at, verb[at], verb);
    VerbRest(p, verb, at + 1);
    SplitText(verb, i, at);
    LeadsAfter(a, from[i..at] + [verb[at]], c, verb[at + 1..] + " ", z, [], Going);
  }

  lemma TurnFacts(verb: string, from: string, at: nat)
    requires Turned(verb, from, at)
    ensures IsVerb(verb) && IsVerb(from) && 0 < at < |from| && at < |verb| && verb[..at] == from[..at]
    ensures verb[at] != from[at] && verb[at] < 256 as char
    ensures if verb[at] == '-' then from == "MKCOL" && at == 1 && verb == "M-SEARCH"
            else IsAlpha(verb[at]) && verb != "" && OtherVerb(from, at, verb[at]) == verb
  {
  }

  // The same after two turns.
  lemma VerbTwice(p: Parser, i: nat, first: string, k: nat, from: string, at: nat, verb: string)
    requires Turned(from, first, k) && Turned(verb, from, at) && i <= k < at
    ensures Leads(InVerb(p, first, i), verb[i..] + " ", AfterVerb(p, verb), [], Going)
  {
    hide *;
    var a, b, z := InVerb(p, first, i), InVerb(p, from, k + 1), AfterVerb(p, verb);
    TurnFacts(verb, from, at);
    TurnFacts(from, first, k);
    TwiceSame(verb, from, first, i, k, at);
    VerbOnto(p, first, i, k, from[k], from);
    VerbOnce(p, k + 1, from, at, verb);
    SplitText(verb, i, k);
    LeadsAfter(a, first[i..k] + [from[k]], b, verb[k + 1..] + " ", z, [], Going);
  }

  lemma TwiceSame(verb: string, from: string, first: string, i: nat, k: nat, at: nat)
    requires i <= k < at <= |verb| && at <= |from| && k <= |first|
    requires verb[..at] == from[..at] && from[..k] == first[..k]
    ensures verb[k] == from[k] && verb[i..k] == first[i..k]
  {
    assert verb[..at][..k] == verb[..k] && from[..at][..k] == from[..k] && verb[k] == verb[..at][k] == from[k];
    SameSlice(verb, from, i, k);
    SameSlice(from, first, i, k);
  }

  lemma SameFirst(verb: string, from: string, at: nat)
    requires Turned(verb, from, at)
    ensures verb != "" && from != "" && verb[0] == from[0] && from != "HEAD"
  {
    assert verb[..at][0] == from[..at][0];
  }

  // The rest of a method after its first letter.
  lemma VerbGoesOn(p: Parser, verb: string)
    requires Known(verb)
    ensures verb != "" && FirstVerb(verb[0]) != "" && (verb[0] == 'H' ==> verb == "HEAD")
    ensures Leads(InVerb(p, FirstVerb(verb[0]), 1), verb[1..] + " ", AfterVerb(p, verb), [], Going)
  {
    hide Leads, InVerb, AfterVerb, OtherVerb, Turned;
    if Straight(verb) {
      VerbRest(p, verb, 1);
    } else if exists from, at :: Turned(verb, from, at) && Straight(from) {
      var from, at :| Turned(verb, from, at) && Straight(from);
      SameFirst(verb, from, at);
      AtLeastOne(verb, from, at);
      VerbOnce(p, 1, from, at, verb);
    } else {
      var from, at, first, k :| Turned(verb, from, at) && Turned(from, first, k) && k < at && Straight(first);
      SameFirst(verb, from, at);
      SameFirst(from, first, k);
      AtLeastOne(from, first, k);
      VerbTwice(p, 1, first, k, from, at, verb);
    }
  }

  lemma AtLeastOne(verb: string, from: string, at: nat)
    requires Turned(verb, from, at)
    ensures 1 <= at
  {
  }

  // Any method and the space after it.
  lemma MethodLeads(p: Parser, verb: string)
    requires Waits(p) && !p.st.StartRes? && verb in HttpMessage.METHODS
    ensures Leads(p, verb + " ", AfterVerb(p, verb), [Noted(MessageBegin, ULLONG_MAX)], Going)
  {
    hide Leads, Turned, Straight, Known, InVerb, AfterVerb, OtherVerb, FirstVerb;
    var begin := [Noted(MessageBegin, ULLONG_MAX)];
    MethodKnown(verb);
    VerbGoesOn(p, verb);
    if p.st.StartReqOrRes? && verb == "HEAD" {
      HeadBegins(p);
      HeadIsVerb();
      VerbRest(p, verb, 2);
      LeadsOn(p, "HE", InVerb(p, verb, 2), begin, verb[2..] + " ", AfterVerb(p, verb), [], Going);
      assert "HE" + ("HEAD"[2..] + " ") == "HEAD" + " ";
    } else {
      VerbBegins(p, verb[0]);
      LeadsOn(p, [verb[0]], InVerb(p, FirstVerb(verb[0]), 1), begin, verb[1..] + " ", AfterVerb(p, verb), [], Going);
      assert [verb[0]] + (verb[1..] + " ") == verb + " ";
    }
    assert begin + [] == begin;
  }

  lemma HeadIsVerb()
    ensures IsVerb("HEAD")
  {
  }

  // ---------- versions and status ----------

  // Digits that make up a number of at most 999, in the states that read one.
  lemma DigitRange(s: string)
    requires HttpMessage.Numeral(s)
    ensures s != "" && IsNum(s[|s| - 1]) && s[|s| - 1] < 256 as char
    ensures Num(s[|s| - 1]) == HttpMessage.DigitValue(s[|s| - 1])
    ensures |s| > 1 ==> HttpMessage.Numeral(s[..|s| - 1])
    ensures HttpMessage.Number(s[..|s| - 1]) <= HttpMessage.Number(s)
    ensures |s| == 1 ==> HttpMessage.Number(s[..|s| - 1]) == 0 && s == [s[|s| - 1]]
    ensures HttpMessage.Number(s) == 10 * HttpMessage.Number(s[..|s| - 1]) + Num(s[|s| - 1])
  {
    if |s| == 1 { assert s[..0] == ""; }
  }

  lemma {:induction false} ReqMajorLeads(p: Parser, s: string)
    requires p.st.ReqFirstMajor? && HttpMessage.Numeral(s) && HttpMessage.Number(s) <= 999 && s[0] != '0'
    ensures Leads(p, s, p.(major := HttpMessage.Number(s), st := ReqMajor), [], Going)
    decreases |s|
  {
    hide *;
    DigitRange(s);
    var front, c := s[..|s| - 1], s[|s| - 1];
    var z := p.(major := HttpMessage.Number(s), st := ReqMajor);
    if |s| == 1 {
      FirstMajorDigit(p, c);
    } else {
      ReqMajorLeads(p, front);
      var q := p.(major := HttpMessage.Number(front), st := ReqMajor);
      MajorDigit(q, c, HttpMessage.Number(s));
      LeadsAfter(p, front, q, [c], z, [], Going);
      assert front + [c] == s;
    }
  }

  lemma FirstMajorDigit(p: Parser, c: char)
    requires IsNum(c) && (p.st.ResFirstMajor? || (p.st.ReqFirstMajor? && c != '0'))
    ensures var s := if p.st.ReqFirstMajor? then ReqMajor else ResMajor;
            Leads(p, [c], p.(major := Num(c), st := s), [], Going)
  {
    var z := p.(major := Num(c), st := if p.st.ReqFirstMajor? then ReqMajor else ResMajor);
    assert OneByte(p, c) == Out(z, [], Advance);
    hide OneByte;
    TakesQuietly(p, c, z);
  }

  lemma MajorDigit(p: Parser, c: char, n: nat)
    requires (p.st.ReqMajor? || p.st.ResMajor?) && IsNum(c) && n == 10 * p.major + Num(c) <= 999 && c < 256 as char
    ensures Leads(p, [c], p.(major := n), [], Going)
  {
    assert OneByte(p, c) == Out(p.(major := n), [], Advance);
    hide OneByte;
    TakesQuietly(p, c, p.(major := n));
  }

  lemma {:induction false} ResMajorLeads(p: Parser, s: string)
    requires p.st.ResFirstMajor? && HttpMessage.Numeral(s) && HttpMessage.Number(s) <= 999
    ensures Leads(p, s, p.(major := HttpMessage.Number(s), st := ResMajor), [], Going)
    decreases |s|
  {
    hide *;
    DigitRange(s);
    var front, c := s[..|s| - 1], s[|s| - 1];
    var z := p.(major := HttpMessage.Number(s), st := ResMajor);
    if |s| == 1 {
      FirstMajorDigit(p, c);
    } else {
      ResMajorLeads(p, front);
      var q := p.(major := HttpMessage.Number(front), st := ResMajor);
      MajorDigit(q, c, HttpMessage.Number(s));
      LeadsAfter(p, front, q, [c], z, [], Going);
      assert front + [c] == s;
    }
  }

  predicate MinorStart(s: St) { s.ReqFirstMinor? || s.ResFirstMinor? }

  function InMinor(p: Parser, n: nat): Parser {
    p.(minor := n, st := if p.st.ReqFirstMinor? then ReqMinor else ResMinor)
  }

  lemma {:induction false} MinorLeads(p: Parser, s: string)
    requires MinorStart(p.st) && HttpMessage.Numeral(s) && HttpMessage.Number(s) <= 999
    ensures Leads(p, s, InMinor(p, HttpMessage.Number(s)), [], Going)
    decreases |s|
  {
    hide *;
    DigitRange(s);
    var front, c := s[..|s| - 1], s[|s| - 1];
    if |s| == 1 {
      FirstMinorDigit(p, c);
    } else {
      MinorLeads(p, front);
      var q := InMinor(p, HttpMessage.Number(front));
      MinorParts(p, HttpMessage.Number(front), HttpMessage.Number(s));
      MinorDigit(q, c, HttpMessage.Number(s));
      LeadsAfter(p, front, q, [c], InMinor(p, HttpMessage.Number(s)), [], Going);
      assert front + [c] == s;
    }
  }

  lemma MinorParts(p: Parser, n: nat, k: nat)
    ensures var q := InMinor(p, n);
            (q.st.ReqMinor? || q.st.ResMinor?) && q.minor == n && q.(minor := k) == InMinor(p, k)
  {
  }

  lemma FirstMinorDigit(p: Parser, c: char)
    requires MinorStart(p.st) && IsNum(c) && c < 256 as char
    ensures Leads(p, [c], InMinor(p, Num(c)), [], Going)
  {
    assert OneByte(p, c) == Out(InMinor(p, Num(c)), [], Advance);
    hide OneByte;
    TakesQuietly(p, c, InMinor(p, Num(c)));
  }

  lemma MinorDigit(p: Parser, c: char, n: nat)
    requires (p.st.ReqMinor? || p.st.ResMinor?) && IsNum(c) && n == 10 * p.minor + Num(c) <= 999 && c < 256 as char
    ensures Leads(p, [c], p.(minor := n), [], Going)
  {
    assert OneByte(p, c) == Out(p.(minor := n), [], Advance);
    hide OneByte;
    TakesQuietly(p, c, p.(minor := n));
  }

  lemma {:induction false} StatusLeads(p: Parser, s: string)
    requires p.st.ResFirstStatus? && HttpMessage.Numeral(s) && HttpMessage.Number(s) <= 999
    ensures Leads(p, s, p.(status := HttpMessage.Number(s), st := ResStatusCode), [], Going)
    decreases |s|
  {
    hide *;
    DigitRange(s);
    var front, c := s[..|s| - 1], s[|s| - 1];
    var z := p.(status := HttpMessage.Number(s), st := ResStatusCode);
    if |s| == 1 {
      FirstStatusDigit(p, c);
    } else {
      StatusLeads(p, front);
      var q := p.(status := HttpMessage.Number(front), st := ResStatusCode);
      StatusDigit(q, c, HttpMessage.Number(s));
      LeadsAfter(p, front, q, [c], z, [], Going);
      assert front + [c] == s;
    }
  }

  lemma FirstStatusDigit(p: Parser, c: char)
    requires p.st.ResFirstStatus? && IsNum(c)
    ensures Leads(p, [c], p.(status := Num(c), st := ResStatusCode), [], Going)
  {
    assert OneByte(p, c) == Out(p.(status := Num(c), st := ResStatusCode), [], Advance);
    hide OneByte;
    TakesQuietly(p, c, p.(status := Num(c), st := ResStatusCode));
  }

  lemma StatusDigit(p: Parser, c: char, n: nat)
    requires p.st.ResStatusCode? && IsNum(c) && n == 10 * p.status + Num(c) <= 999 && c < 256 as char
    ensures Leads(p, [c], p.(status := n), [], Going)
  {
    assert OneByte(p, c) == Out(p.(status := n), [], Advance);
    hide OneByte;
    TakesQuietly(p, c, p.(status := n));
  }

  // Characters that only move the parser on.
  lemma Walks(p: Parser, c: char, s: St)
    requires c < 256 as char && !Looping(p.st) && OneByte(p, c) == Out(p.(st := s), [], Advance) && Item(s, c) == []
    ensures Leads(p, [c], p.(st := s), [], Going)
  {
    hide OneByte, Item;
    TakesQuietly(p, c, p.(st := s));
  }
}
