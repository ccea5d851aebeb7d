// Connection options, as the HTTP parser tells them apart.
module HttpOptions {
  import opened HttpMachine
  import opened HttpStream
  import opened HttpSegments
  import opened HttpFields
  import opened HttpValues
  import opened HttpMessage

  // ---------- the states of an option ----------

  // The state after a part of an option, in lower case.
  function WordHs(f: string): HState {
    if PrefixOf(f, "keep-alive") then if |f| == 10 then KeepAlive else MatchingKeepAlive
    else if PrefixOf(f, "close") then if |f| == 5 then Close else MatchingClose
    else if PrefixOf(f, "upgrade") then if |f| == 7 then ConnUpgrade else MatchingConnUpgrade
    else ConnToken
  }

  predicate Matching(h: HState) { h.MatchingKeepAlive? || h.MatchingClose? || h.MatchingConnUpgrade? }

  predicate Matched(h: HState) { h.KeepAlive? || h.Close? || h.ConnUpgrade? }

  // The state at the beginning of an option that is not the first one.
  function EarHs(e: Ear): HState {
    match e
    case Listening => TokenStart
    case Missing => ConnToken
    case Deaf => General
  }

  // The state after a part of an option; mute says that the parser stops listening to it.
  function PartHs(e: Ear, mute: bool, f: string): HState {
    match e
    case Listening => if mute then General else WordHs(f)
    case Missing => ConnToken
    case Deaf => General
  }

  lemma OneWord(f: string)
    requires f != ""
    ensures PrefixOf(f, "keep-alive") ==> f[0] == 'k'
    ensures PrefixOf(f, "close") ==> f[0] == 'c'
    ensures PrefixOf(f, "upgrade") ==> f[0] == 'u'
  {
    if PrefixOf(f, "keep-alive") { Same(f, "keep-alive"); }
    if PrefixOf(f, "close") { Same(f, "close"); }
    if PrefixOf(f, "upgrade") { Same(f, "upgrade"); }
  }

  lemma FirstWordHs(t: char)
    ensures WordHs([t]) == if t == 'k' then MatchingKeepAlive else if t == 'c' then MatchingClose
                           else if t == 'u' then MatchingConnUpgrade else ConnToken
  {
    Single(t, "keep-alive");
    Single(t, "close");
    Single(t, "upgrade");
    hide PrefixOf;
  }

  lemma TokenOctet(c: char)
    requires TokenChar(c)
    ensures ValueOctet(c) && c != ' ' && c != '\t' && c != ','
  {
  }

  // The first character of the first option.
  lemma FirstOption(p: Parser, c: char)
    requires p.st.DiscardWs? && p.hs.Connection? && TokenChar(c)
    ensures ValueStartByte(p, c) ==
            Out(p.(st := HeaderValue, index := 0, hs := PartHs(Listening, false, [Small(c)])), [Mark(Value)], Advance)
  {
    TokenOctet(c);
    FirstWordHs(Small(c));
    LowerIs(c, 'k');
    LowerIs(c, 'c');
    LowerIs(c, 'u');
    hide Lower, Small, WordHs;
  }

  lemma LowerToken(c: char)
    requires TokenChar(c)
    ensures Token(Lower(c)) == 0 as char <==> c == '_'
    ensures Lower(c) != ' ' && Lower(c) != '\t'
  {
  }

  // The first character of a further option.
  lemma NextOption(a: Parser, e: Ear, c: char) returns (q: Parser)
    requires a.st.HeaderValue? && a.hs == EarHs(e) && (e.Listening? ==> a.index == 0) && TokenChar(c)
    ensures q == a.(hs := PartHs(e, c == '_', [Small(c)])) && ValueChar(a, c) == Out(q, [], Advance)
    ensures Matching(q.hs) ==> q.index == 0
  {
    TokenOctet(c);
    FirstWordHs(Small(c));
    LowerIs(c, 'k');
    LowerIs(c, 'c');
    LowerIs(c, 'u');
    LowerToken(c);
    q := a.(hs := PartHs(e, c == '_', [Small(c)]));
    hide Lower, Small, WordHs, Token;
    assert c == '_' ==> Small(c) != 'k' && Small(c) != 'c' && Small(c) != 'u' by { SmallUnderscore(); }
  }

  lemma SmallUnderscore()
    ensures Small('_') == '_'
  {
  }

  // One more character of a word that is being matched.
  lemma WordStep(a: Parser, name: string, done: HState, f: string, c: char)
    requires f != "" && PrefixOf(f, name) && |f| < |name| && a.index == |f| - 1 && ValueOctet(c)
    requires 'a' <= name[|f|] <= 'z' || name[|f|] == '-'
    ensures MatchWord(a, Lower(c), name, done, ConnToken) ==
            a.(index := |f|,
               hs := if !PrefixOf(f + [Small(c)], name) then ConnToken else if |f| + 1 == |name| then done else a.hs)
  {
    PrefixMore(f, Small(c), name);
    LowerIs(c, name[|f|]);
    hide PrefixOf, Lower, Small;
  }

  lemma NameChars(i: nat)
    ensures i < 10 ==> 'a' <= "keep-alive"[i] <= 'z' || "keep-alive"[i] == '-'
    ensures i < 5 ==> 'a' <= "close"[i] <= 'z'
    ensures i < 7 ==> 'a' <= "upgrade"[i] <= 'z'
  {
  }

  lemma MatchingNext(a: Parser, f: string, c: char) returns (q: Parser)
    requires a.st.HeaderValue? && f != "" && a.hs == WordHs(f) && Matching(a.hs) && a.index == |f| - 1 && ValueOctet(c)
    requires c != ','
    ensures q == a.(hs := WordHs(f + [Small(c)]), index := |f|) && ValueChar(a, c) == Out(q, [], Advance)
  {
    var z := f + [Small(c)];
    OneWord(f);
    OneWord(z);
    assert z[0] == f[0];
    NameChars(|f|);
    if a.hs.MatchingKeepAlive? { WordStep(a, "keep-alive", KeepAlive, f, c); }
    else if a.hs.MatchingClose? { WordStep(a, "close", Close, f, c); }
    else { WordStep(a, "upgrade", ConnUpgrade, f, c); }
    hide PrefixOf, Lower, Small, MatchWord;
    q := ValueChar(a, c).p;
  }

  // A word that is complete, or none of the three.
  lemma OtherNext(a: Parser, f: string, c: char)
    requires a.st.HeaderValue? && f != "" && a.hs == WordHs(f) && !Matching(a.hs) && TokenChar(c)
    ensures WordHs(f + [Small(c)]) == ConnToken && ValueChar(a, c) == Out(a.(hs := ConnToken), [], Advance)
  {
    TokenOctet(c);
    PrefixMore(f, Small(c), "keep-alive");
    PrefixMore(f, Small(c), "close");
    PrefixMore(f, Small(c), "upgrade");
    OneWord(f);
    hide PrefixOf, Lower, Small;
  }

  lemma WordNext(a: Parser, e: Ear, mute: bool, f: string, c: char) returns (q: Parser)
    requires a.st.HeaderValue? && f != "" && a.hs == PartHs(e, mute, f) && (Matching(a.hs) ==> a.index == |f| - 1)
    requires TokenChar(c)
    ensures q == a.(hs := PartHs(e, mute, f + [Small(c)]), index := q.index) && ValueChar(a, c) == Out(q, [], Advance)
    ensures Matching(q.hs) ==> q.index == |f|
  {
    TokenOctet(c);
    hide WordHs, Small, Lower;
    if e.Listening? && !mute {
      hide ValueChar;
      if Matching(a.hs) {
        q := MatchingNext(a, f, c);
      } else {
        OtherNext(a, f, c);
        q := a.(hs := ConnToken);
      }
    } else {
      q := a;
    }
  }

  // The spaces after an option.
  function SpacedHs(h: HState, after: string): HState { if after != "" && Matching(h) then ConnToken else h }

  lemma SpaceNext(a: Parser, h: HState, f: string)
    requires a.st.HeaderValue? && (a.hs == h || a.hs == SpacedHs(h, " "))
    requires h.General? || h.ConnToken? || Matched(h) || (Matching(h) && h == WordHs(f) && f != ""
             && a.index == |f| - 1)
             || (Matching(h) && a.hs.ConnToken?)
    ensures ValueChar(a, ' ').acts == [] && ValueChar(a, ' ').flow.Advance?
    ensures var q := ValueChar(a, ' ').p; q == a.(hs := SpacedHs(h, " "), index := q.index)
  {
    if Matching(a.hs) {
      var q := MatchingNext(a, f, ' ');
      NoSpaceInWords(f);
    }
    hide WordHs, MatchWord;
  }

  lemma NoSpaceInWords(f: string)
    requires Matching(WordHs(f))
    ensures WordHs(f + [Small(' ')]) == ConnToken
  {
    PrefixMore(f, ' ', "keep-alive");
    PrefixMore(f, ' ', "close");
    PrefixMore(f, ' ', "upgrade");
    NameChars(|f|);
    hide PrefixOf;
  }

  // The comma after an option.
  function CommaFlags(h: HState, flags: Flags): Flags {
    match h
    case KeepAlive => flags.(keepAlive := true)
    case Close => flags.(close := true)
    case ConnUpgrade => flags.(connUpgrade := true)
    case _ => flags
  }

  lemma CommaNext(a: Parser, h: HState, f: string) returns (q: Parser)
    requires a.st.HeaderValue? && a.hs == h
    requires h.General? || h.ConnToken? || Matched(h) || (Matching(h) && h == WordHs(f) && f != ""
             && a.index == |f| - 1)
    ensures ValueChar(a, ',') == Out(q, [], Advance)
    ensures var g := if h.General? then General else if Matching(h) then ConnToken else TokenStart;
            q == a.(hs := g, index := q.index, flags := CommaFlags(h, a.flags)) && (g.TokenStart? ==> q.index == 0)
  {
    if Matching(h) { CommaBreaks(a, f); }
    q := ValueChar(a, ',').p;
    hide WordHs, MatchWord;
  }

  lemma CommaBreaks(a: Parser, f: string)
    requires a.st.HeaderValue? && f != "" && a.hs == WordHs(f) && Matching(a.hs) && a.index == |f| - 1
    ensures ValueChar(a, ',') == Out(a.(hs := ConnToken, index := |f|), [], Advance)
  {
    assert Lower(',') == ',' && Small(',') == ',';
    NameChars(|f|);
    PrefixMore(f, ',', "keep-alive");
    PrefixMore(f, ',', "close");
    PrefixMore(f, ',', "upgrade");
    if a.hs.MatchingKeepAlive? { WordStep(a, "keep-alive", KeepAlive, f, ','); }
    else if a.hs.MatchingClose? { WordStep(a, "close", Close, f, ','); }
    else { WordStep(a, "upgrade", ConnUpgrade, f, ','); }
    hide PrefixOf, Lower, Small, MatchWord;
  }

  // ---------- one option in the text ----------

  // w leads from p to a, as part of a value.
  ghost predicate Upto(p: Parser, w: string, a: Parser) {
    a.st.HeaderValue? && Leads(p, w, a, [Data(Value, w)], Going)
  }

  lemma UptoMore(p: Parser, w: string, a: Parser, c: char, q: Parser)
    requires Upto(p, w, a) && ValueOctet(c) && ValueChar(a, c) == Out(q, [], Advance) && q.st.HeaderValue?
    ensures Upto(p, w + [c], q)
  {
    ValueGoesOn(p, w, a, c, q);
  }

  // The rest of a word of which i characters are read.
  lemma {:induction false} WordRest(p: Parser, w: string, a: Parser, e: Ear, mute: bool, word: string, i: nat)
      returns (q: Parser)
    requires IsToken(word) && 0 < i <= |word| && Upto(p, w + word[..i], a)
    requires a.hs == PartHs(e, mute, Folded(word[..i])) && (Matching(a.hs) ==> a.index == i - 1)
    ensures Upto(p, w + word, q) && q == a.(hs := PartHs(e, mute, Folded(word)), index := q.index)
    ensures Matching(q.hs) ==> q.index == |word| - 1
    decreases |word| - i
  {
    hide Upto, PartHs, Matching, Folded, TokenChar, ValueChar, Small;
    if i == |word| {
      q := a;
      assert word[..i] == word;
    } else {
      var c, z := word[i], word[..i + 1];
      FoldedMore(z);
      assert z[..i] == word[..i] && w + word[..i] + [c] == w + z;
      assert |Folded(word[..i])| == i;
      TokenOctet(c);
      UptoState(p, w + word[..i], a);
      var b := WordNext(a, e, mute, Folded(word[..i]), c);
      UptoMore(p, w + word[..i], a, c, b);
      q := WordRest(p, w, b, e, mute, word, i + 1);
    }
  }

  lemma UptoState(p: Parser, w: string, a: Parser)
    requires Upto(p, w, a)
    ensures a.st.HeaderValue?
  {
  }

  // The spaces in front of a further option.
  lemma {:induction false} LeadIn(p: Parser, w: string, a: Parser, e: Ear, before: string)
    requires Upto(p, w, a) && a.hs == EarHs(e) && OnlySpaces(before)
    ensures Upto(p, w + before, a)
    decreases |before|
  {
    UptoState(p, w, a);
    EarSpace(a, e);
    SpacesStay(p, w, a, before);
  }

  lemma EarSpace(a: Parser, e: Ear)
    requires a.st.HeaderValue? && a.hs == EarHs(e)
    ensures ValueChar(a, ' ') == Out(a, [], Advance)
  {
    assert a.(st := HeaderValue) == a && a.(hs := a.hs) == a;
  }

  // The spaces after an option.
  lemma {:induction false} LeadOut(p: Parser, w: string, a: Parser, h: HState, f: string, after: string)
      returns (q: Parser)
    requires Upto(p, w, a) && a.hs == h && OnlySpaces(after)
    requires h.General? || h.ConnToken? || Matched(h) || (Matching(h) && h == WordHs(f) && f != ""
             && a.index == |f| - 1)
    ensures Upto(p, w + after, q) && q == a.(hs := SpacedHs(h, after), index := q.index)
    ensures Matching(q.hs) ==> q == a
    decreases |after|
  {
    hide Upto, ValueChar, WordHs;
    if after == "" {
      q := a;
      assert w + after == w;
    } else {
      var front := after[..|after| - 1];
      var b := LeadOut(p, w, a, h, f, front);
      UptoState(p, w + front, b);
      SpaceNext(b, h, f);
      q := ValueChar(b, ' ').p;
      assert ValueChar(b, ' ') == Out(q, [], Advance);
      UptoMore(p, w + front, b, ' ', q);
      assert w + front + [' '] == w + after;
    }
  }

  lemma PartHsKinds(e: Ear, mute: bool, f: string)
    ensures var h := PartHs(e, mute, f);
            (h.General? || h.ConnToken? || Matched(h) || Matching(h)) && (Matching(h) ==> h == WordHs(f))
  {
  }

  function Mute(o: Option, k: nat): bool { k > 0 && o.word != "" && o.word[0] == '_' }

  // The state after option o at position k.
  function OptionHs(e: Ear, o: Option, k: nat): HState { SpacedHs(PartHs(e, Mute(o, k), Folded(o.word)), o.after) }

  // The first option.
  lemma FirstLeads(p: Parser, o: Option) returns (q: Parser)
    requires p.st.DiscardWs? && p.hs.Connection? && ProperOption(o) && o.before == ""
    ensures Upto(p, o.word + o.after, q) && q == p.(st := HeaderValue, hs := OptionHs(Listening, o, 0),
            index := q.index)
    ensures Matching(q.hs) ==> q.index == |o.word| - 1
  {
    var c := o.word[0];
    var f := Folded(o.word);
    var a := p.(st := HeaderValue, index := 0, hs := PartHs(Listening, false, [Small(c)]));
    FirstOption(p, c);
    TokenOctet(c);
    FirstValueByte(p, c, a);
    assert o.word[..1] == [c] && "" + [c] == [c] && Folded([c]) == [Small(c)];
    hide PartHs, Matching, ValueChar, WordHs, ValueStartByte, Leads, Folded, Small;
    assert Upto(p, "" + o.word[..1], a);
    hide Upto;
    var b := WordRest(p, "", a, Listening, false, o.word, 1);
    PartHsKinds(Listening, false, f);
    assert "" + o.word == o.word;
    q := LeadOut(p, o.word, b, b.hs, f, o.after);
  }

  // A further option, after its comma.
  lemma FurtherLeads(p: Parser, w: string, a: Parser, e: Ear, o: Option, k: nat) returns (q: Parser)
    requires Upto(p, w, a) && a.hs == EarHs(e) && (e.Listening? ==> a.index == 0) && ProperOption(o) && k > 0
    ensures Upto(p, w + o.before + o.word + o.after, q) && q == a.(hs := OptionHs(e, o, k), index := q.index)
    ensures Matching(q.hs) ==> q.index == |o.word| - 1
  {
    var c := o.word[0];
    var f, mute := Folded(o.word), c == '_';
    LeadIn(p, w, a, e, o.before);
    UptoState(p, w, a);
    var b0 := NextOption(a, e, c);
    TokenOctet(c);
    UptoMore(p, w + o.before, a, c, b0);
    assert o.word[..1] == [c] && Folded([c]) == [Small(c)];
    hide PartHs, Matching, ValueChar, WordHs, Leads, Folded, Small, Upto, EarHs;
    var b := WordRest(p, w + o.before, b0, e, mute, o.word, 1);
    PartHsKinds(e, mute, f);
    q := LeadOut(p, w + o.before + o.word, b, b.hs, f, o.after);
  }

  // ---------- all options ----------

  function SetFlag(flags: Flags, f: string): Flags {
    if f == "keep-alive" then flags.(keepAlive := true) else if f == "close" then flags.(close := true)
    else if f == "upgrade" then flags.(connUpgrade := true) else flags
  }

  // The flags that the first n options set.
  function HeardFlags(flags: Flags, options: seq<Option>, n: nat): Flags
    requires n <= |options|
  {
    if n == 0 then flags
    else
      var g := HeardFlags(flags, options, n - 1);
      if EarAt(options, n - 1).Listening? then SetFlag(g, Folded(options[n - 1].word)) else g
  }

  lemma WordFlags(f: string, flags: Flags)
    ensures CommaFlags(WordHs(f), flags) == EndFlags(WordHs(f), flags) == SetFlag(flags, f)
  {
    assert PrefixOf("keep-alive", "keep-alive") && PrefixOf("close", "close") && PrefixOf("upgrade", "upgrade");
    OneWord("close");
    OneWord("upgrade");
  }

  // What the end of option k makes of the flags, at a comma or at the end.
  lemma OptionFlags(e: Ear, o: Option, k: nat, flags: Flags)
    requires ProperOption(o)
    ensures var h := OptionHs(e, o, k); var f := Folded(o.word);
            CommaFlags(h, flags) == EndFlags(h, flags) == if e.Listening? then SetFlag(flags, f) else flags
  {
    var f := Folded(o.word);
    WordFlags(f, flags);
    if Mute(o, k) { MuteSetsNothing(o.word, flags); }
    hide WordHs, Folded, SetFlag;
  }

  lemma MuteSetsNothing(w: string, flags: Flags)
    requires w != "" && w[0] == '_'
    ensures SetFlag(flags, Folded(w)) == flags
  {
    assert Folded(w)[0] == '_';
  }

  // The state after the comma behind option k.
  lemma CommaEar(e: Ear, o: Option, k: nat)
    requires ProperOption(o)
    ensures var h := OptionHs(e, o, k);
            var next := match e
              case Listening => if Mute(o, k) then Deaf else if Stub(o) then Missing else Listening
              case Missing => Listening
              case Deaf => Deaf;
            (if h.General? then General else if Matching(h) then ConnToken else TokenStart) == EarHs(next)
  {
    var f := Folded(o.word);
    StubIsMatching(o);
    hide WordHs, Folded, Stub;
  }

  lemma StubIsMatching(o: Option)
    requires ProperOption(o)
    ensures Stub(o) <==> o.after == "" && Matching(WordHs(Folded(o.word)))
    ensures !WordHs(Folded(o.word)).General?
  {
    var f := Folded(o.word);
    OneWord(f);
  }

  lemma {:induction false} EarPrefix(options: seq<Option>, k: nat, n: nat)
    requires n <= k <= |options|
    ensures EarAt(options[..k], n) == EarAt(options, n)
  {
    hide Stub;
    if n > 0 { EarPrefix(options, k, n - 1); }
  }

  lemma {:induction false} HeardPrefix(flags: Flags, options: seq<Option>, k: nat, n: nat)
    requires n <= k <= |options|
    ensures HeardFlags(flags, options[..k], n) == HeardFlags(flags, options, n)
  {
    hide EarAt, SetFlag, Folded;
    if n > 0 {
      HeardPrefix(flags, options, k, n - 1);
      EarPrefix(options, k, n - 1);
    }
  }

  // The whole list.
  lemma {:induction false} OptionsLead(p: Parser, options: seq<Option>) returns (q: Parser)
    requires p.st.DiscardWs? && p.hs.Connection? && options != [] && options[0].before == ""
    requires forall i :: 0 <= i < |options| ==> ProperOption(options[i])
    ensures var n := |options| - 1; var h := OptionHs(EarAt(options, n), options[n], n);
            && Upto(p, OptionsText(options), q)
            && q == p.(st := HeaderValue, hs := h, index := q.index, flags := HeardFlags(p.flags, options, n))
            && (Matching(h) ==> q.index == |options[n].word| - 1)
    decreases |options|
  {
    hide Upto, OptionHs, EarAt, HeardFlags, ProperOption, Matching;
    var n := |options| - 1;
    var front, o := options[..n], options[n];
    if n == 0 {
      OnlyOption(options);
      NothingHeard(p.flags, options);
      q := FirstLeads(p, o);
    } else {
      var b := OptionsLead(p, front);
      q := OneMoreOption(p, options, b);
    }
  }

  lemma LastOption(options: seq<Option>)
    requires options != []
    ensures var n := |options| - 1;
            OptionsText(options) == OptionsText(options[..n]) + (if n == 0 then "" else ",") + options[n].before
              + options[n].word + options[n].after
  {
  }

  lemma OnlyOption(options: seq<Option>)
    requires |options| == 1 && options[0].before == ""
    ensures OptionsText(options) == options[0].word + options[0].after
  {
    LastOption(options);
    assert options[..0] == [];
    assert OptionsText([]) == "";
    hide OptionsText;
    assert "" + "" + "" + options[0].word == options[0].word;
  }

  lemma NothingHeard(flags: Flags, options: seq<Option>)
    ensures EarAt(options, 0) == Listening && HeardFlags(flags, options, 0) == flags
  {
  }

  lemma OneMoreOption(p: Parser, options: seq<Option>, b: Parser) returns (q: Parser)
    requires |options| > 1 && forall i :: 0 <= i < |options| ==> ProperOption(options[i])
    requires var n := |options| - 1; var front := options[..n]; var h :=
             OptionHs(EarAt(front, n - 1), front[n - 1], n - 1);
             && Upto(p, OptionsText(front), b)
             && b == p.(st := HeaderValue, hs := h, index := b.index, flags := HeardFlags(p.flags, front, n - 1))
             && (Matching(h) ==> b.index == |front[n - 1].word| - 1)
    ensures var n := |options| - 1; var h := OptionHs(EarAt(options, n), options[n], n);
            && Upto(p, OptionsText(options), q)
            && q == p.(st := HeaderValue, hs := h, index := q.index, flags := HeardFlags(p.flags, options, n))
            && (Matching(h) ==> q.index == |options[n].word| - 1)
  {
    hide *;
    var n := |options| - 1;
    var front, o, last := options[..n], options[n], options[n - 1];
    var w, e, f := OptionsText(front), EarAt(options, n - 1), Folded(last.word);
    EarPrefix(options, n, n - 1);
    HeardPrefix(p.flags, options, n, n - 1);
    LastOption(options);
    OptionKinds(e, last, n - 1);
    CommaEar(e, last, n - 1);
    OptionFlags(e, last, n - 1, b.flags);
    EarNext(options, n);
    HeardNext(p.flags, options, n);
    UptoState(p, w, b);
    var a := CommaNext(b, b.hs, f);
    CommaOctet();
    EarStart(EarAt(options, n));
    UptoMore(p, w, b, ',', a);
    q := FurtherLeads(p, w + ",", a, EarAt(options, n), o, n);
  }

  lemma EarStart(e: Ear)
    ensures EarHs(e).TokenStart? <==> e.Listening?
  {
  }

  lemma CommaOctet()
    ensures ValueOctet(',')
  {
  }

  lemma OptionKinds(e: Ear, o: Option, k: nat)
    requires ProperOption(o)
    ensures var h := OptionHs(e, o, k); var f := Folded(o.word);
            && f != "" && |f| == |o.word|
            && (h.General? || h.ConnToken? || Matched(h) || (Matching(h) && h == WordHs(f)))
  {
    PartHsKinds(e, Mute(o, k), Folded(o.word));
    hide PartHs, WordHs;
  }

  lemma EarNext(options: seq<Option>, n: nat)
    requires 0 < n <= |options|
    ensures var o, k := options[n - 1], n - 1;
            EarAt(options, n) ==
            match EarAt(options, k)
            case Listening => if Mute(o, k) then Deaf else if Stub(o) then Missing else Listening
            case Missing => Listening
            case Deaf => Deaf
  {
    hide Stub;
  }

  lemma HeardNext(flags: Flags, options: seq<Option>, n: nat)
    requires 0 < n <= |options|
    ensures var g := HeardFlags(flags, options, n - 1);
            HeardFlags(flags, options, n)
            == if EarAt(options, n - 1).Listening? then SetFlag(g, Folded(options[n - 1].word)) else g
  {
    hide EarAt, SetFlag, Folded;
  }

  // Together: what the options ask for.
  lemma {:induction false} HeardMeans(flags: Flags, options: seq<Option>, n: nat)
    requires n <= |options|
    ensures HeardFlags(flags, options, n) ==
            flags.(keepAlive := flags.keepAlive || AskedBy(options, n, "keep-alive"),
                   close := flags.close || AskedBy(options, n, "close"),
                   connUpgrade := flags.connUpgrade || AskedBy(options, n, "upgrade"))
  {
    hide *;
    AskedNext(options, n, "keep-alive");
    AskedNext(options, n, "close");
    AskedNext(options, n, "upgrade");
    if n > 0 {
      HeardMeans(flags, options, n - 1);
      HeardNext(flags, options, n);
      SetFlagIs(HeardFlags(flags, options, n - 1), Folded(options[n - 1].word));
    } else {
      NothingHeard(flags, options);
    }
  }

  lemma SetFlagIs(g: Flags, f: string)
    ensures SetFlag(g, f) == g.(keepAlive := g.keepAlive || f == "keep-alive", close := g.close || f == "close",
                                connUpgrade := g.connUpgrade || f == "upgrade")
  {
  }

  predicate AskedBy(options: seq<Option>, n: nat, word: string)
    requires n <= |options|
  {
    exists k :: 0 <= k < n && EarAt(options, k).Listening? && Folded(options[k].word) == word
  }

  lemma AskedNext(options: seq<Option>, n: nat, word: string)
    requires n <= |options|
    ensures AskedBy(options, n, word) <==>
            n > 0 && (AskedBy(options, n - 1, word)
                      || (EarAt(options, n - 1).Listening? && Folded(options[n - 1].word) == word))
  {
    hide EarAt, Folded;
  }
}
