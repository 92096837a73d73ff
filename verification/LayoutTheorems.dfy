/** The layout parser inverts the layout grammar. */
module LayoutTheorems {
  import opened Bytes
  import opened LayoutParser

  // ---- The grammar ----

  predicate Fits(n: int) {
    0 <= n < INT_LIMIT
  }

  /** A pane tree as tmux prints it: a leaf with a decimal id (or none), or a split with at
      least one child. */
  predicate Printable(l: Layout) {
    && Fits(l.w) && Fits(l.h) && Fits(l.x) && Fits(l.y)
    && (l.children == [] ==> !l.vertical && (l.paneID == [] || (l.paneID[0] == PERCENT && AllDigits(l.paneID[1..]))))
    && (l.children != [] ==> l.paneID == [])
    && forall i | 0 <= i < |l.children| :: Printable(l.children[i])
  }

  predicate AllPrintable(ls: seq<Layout>) {
    forall i | 0 <= i < |ls| :: Printable(ls[i])
  }

  function HeaderText(l: Layout): seq<Byte>
    requires Printable(l)
  {
    Decimal(l.w) + [X] + Decimal(l.h) + [COMMA] + Decimal(l.x) + [COMMA] + Decimal(l.y)
  }

  function Open(l: Layout): Byte {
    if l.vertical then BRACKET else BRACE
  }

  function Close(l: Layout): Byte {
    if l.vertical then BRACKET_END else BRACE_END
  }

  function Print(l: Layout): seq<Byte>
    requires Printable(l)
    decreases l, 1
  {
    HeaderText(l) +
    if l.children != [] then [Open(l)] + PrintAll(l.children) + [Close(l)]
    else if l.paneID != [] then [COMMA] + l.paneID[1..]
    else []
  }

  function PrintAll(ls: seq<Layout>): seq<Byte>
    requires AllPrintable(ls)
    decreases ls, 0
  {
    if ls == [] then [] else if |ls| == 1 then Print(ls[0]) else Print(ls[0]) + [COMMA] + PrintAll(ls[1..])
  }

  // ---- Fields ----

  lemma {:induction false} NumberOfDecimal(n: nat)
    ensures NumberOf(Decimal(n)) == n
    decreases n
  {
    if n >= 10 {
      NumberOfDecimal(n / 10);
      assert Decimal(n)[..|Decimal(n)| - 1] == Decimal(n / 10);
    } else {
      assert Decimal(n)[..0] == [];
    }
  }

  lemma AtoiDecimal(n: int)
    requires Fits(n)
    ensures Atoi(Decimal(n)) == Ok(n)
  {
    NumberOfDecimal(n);
    assert IsDigit(Decimal(n)[0]);
  }

  lemma Unsigned(ds: seq<Byte>)
    requires ds != [] && AllDigits(ds)
    ensures Atoi(ds) == if NumberOf(ds) < INT_LIMIT then Ok(NumberOf(ds)) else Err(BadNumber)
  {
    assert IsDigit(ds[0]);
    hide NumberOf, AllDigits;
  }

  lemma Signed(ds: seq<Byte>)
    requires ds != [] && AllDigits(ds)
    ensures Atoi([PLUS] + ds) == if NumberOf(ds) < INT_LIMIT then Ok(NumberOf(ds)) else Err(BadNumber)
    ensures Atoi([MINUS] + ds) == if NumberOf(ds) <= INT_LIMIT then Ok(0 - NumberOf(ds)) else Err(BadNumber)
  {
    hide NumberOf, AllDigits;
    assert ([PLUS] + ds)[1..] == ds && ([MINUS] + ds)[1..] == ds;
  }

  /** A written number, with or without a sign, is read as that number exactly if it fits into
      64 bits; a sign alone is refused. */
  lemma NumbersAreExact(n: int)
    requires 0 <= n
    ensures Atoi(Decimal(n)) == if n < 0x8000_0000_0000_0000 then Ok(n) else Err(BadNumber)
    ensures Atoi([PLUS] + Decimal(n)) == if n < 0x8000_0000_0000_0000 then Ok(n) else Err(BadNumber)
    ensures Atoi([MINUS] + Decimal(n)) == if n <= 0x8000_0000_0000_0000 then Ok(-n) else Err(BadNumber)
    ensures Atoi([]) == Atoi([MINUS]) == Atoi([PLUS]) == Err(BadNumber)
  {
    assert Atoi([]) == Atoi([MINUS]) == Atoi([PLUS]) == Err(BadNumber);
    hide Atoi, Decimal, NumberOf;
    NumberOfDecimal(n);
    Unsigned(Decimal(n));
    Signed(Decimal(n));
  }

  lemma NotANumber(s: seq<Byte>, i: nat)
    requires i < |s| && !IsDigit(s[i]) && (i > 0 || (s[0] != MINUS && s[0] != PLUS))
    ensures Atoi(s) == Err(BadNumber)
  {
    if s[0] == MINUS || s[0] == PLUS {
      assert s[1..][i - 1] == s[i];
    }
  }

  lemma {:induction false} UntilSkips(p: seq<Byte>, rest: seq<Byte>, stops: seq<Byte>)
    requires forall i | 0 <= i < |p| :: p[i] !in stops
    ensures Until(p + rest, stops) == |p| + Until(rest, stops)
    decreases |p|
  {
    if p == [] {
      assert p + rest == rest;
    } else {
      assert (p + rest)[1..] == p[1..] + rest;
      UntilSkips(p[1..], rest, stops);
    }
  }

  lemma FieldReads(n: int, stop: Byte, rest: seq<Byte>, missing: Error)
    requires Fits(n) && !IsDigit(stop)
    ensures Field(Decimal(n) + [stop] + rest, stop, missing) == Ok((n, rest))
  {
    hide Atoi, Decimal;
    var s := Decimal(n) + [stop] + rest;
    assert s == Decimal(n) + ([stop] + rest);
    UntilSkips(Decimal(n), [stop] + rest, [stop]);
    AtoiDecimal(n);
    assert s[..|Decimal(n)|] == Decimal(n) && s[|Decimal(n)| + 1..] == rest;
  }

  lemma HeaderReads(l: Layout, tail: seq<Byte>)
    requires Printable(l) && (tail == [] || tail[0] in [COMMA, BRACE, BRACKET])
    ensures HeaderOf(HeaderText(l) + tail) == Ok(Header(l.w, l.h, l.x, l.y, tail))
  {
    hide Field, Atoi, Decimal, Until, Printable;
    FieldsFit(l);
    var s3 := Decimal(l.y) + tail;
    var s2 := Decimal(l.x) + [COMMA] + s3;
    var s1 := Decimal(l.h) + [COMMA] + s2;
    assert HeaderText(l) + tail == Decimal(l.w) + [X] + s1;
    FieldReads(l.w, X, s1, MissingX);
    FieldReads(l.h, COMMA, s2, MissingComma);
    FieldReads(l.x, COMMA, s3, MissingComma);
    DigitsAreNoStops(l.y);
    UntilSkips(Decimal(l.y), tail, [COMMA, BRACE, BRACKET]);
    AtoiDecimal(l.y);
    StopsAtOnce(tail);
    assert s3[..|Decimal(l.y)|] == Decimal(l.y) && s3[|Decimal(l.y)|..] == tail;
  }

  lemma FieldsFit(l: Layout)
    requires Printable(l)
    ensures Fits(l.w) && Fits(l.h) && Fits(l.x) && Fits(l.y)
  {
  }

  lemma DigitsAreNoStops(n: nat)
    ensures forall i | 0 <= i < |Decimal(n)| :: Decimal(n)[i] !in [COMMA, BRACE, BRACKET]
  {
    hide Decimal;
    forall i | 0 <= i < |Decimal(n)|
      ensures Decimal(n)[i] !in [COMMA, BRACE, BRACKET]
    {
      assert IsDigit(Decimal(n)[i]);
    }
  }

  lemma StopsAtOnce(tail: seq<Byte>)
    requires tail == [] || tail[0] in [COMMA, BRACE, BRACKET]
    ensures Until(tail, [COMMA, BRACE, BRACKET]) == 0
  {
  }

  lemma {:induction false} RunSkips(ds: seq<Byte>, rest: seq<Byte>)
    requires AllDigits(ds)
    ensures DigitRun(ds + rest) == |ds| + DigitRun(rest)
    decreases |ds|
  {
    if ds == [] {
      assert ds + rest == rest;
    } else {
      assert (ds + rest)[1..] == ds[1..] + rest;
      RunSkips(ds[1..], rest);
    }
  }

  // ---- Brackets pair up ----

  predicate IsBracket(b: Byte) {
    b in [BRACE, BRACKET, BRACE_END, BRACKET_END]
  }

  predicate Pair(open: Byte, end: Byte) {
    (open == BRACE && end == BRACE_END) || (open == BRACKET && end == BRACKET_END)
  }

  predicate NoBrackets(p: seq<Byte>) {
    forall i | 0 <= i < |p| :: !IsBracket(p[i])
  }

  lemma HeaderHasNoBrackets(l: Layout)
    requires Printable(l)
    ensures NoBrackets(HeaderText(l))
  {
    hide Decimal, Printable;
    FieldsFit(l);
    var a, b, c, d := Decimal(l.w), Decimal(l.h), Decimal(l.x), Decimal(l.y);
    forall i | 0 <= i < |HeaderText(l)|
      ensures !IsBracket(HeaderText(l)[i])
    {
      var y := HeaderText(l)[i];
      assert y == X || y == COMMA || y in a || y in b || y in c || y in d;
      assert y == X || y == COMMA || IsDigit(y);
    }
  }

  lemma MatchStep(b: Byte, rest: seq<Byte>, open: Byte, end: Byte, depth: int)
    requires Pair(open, end) && !(b == end && depth == 1)
    ensures Matching([b] + rest, open, end, depth) ==
      Plus(1, Matching(rest, open, end, DepthAfter(b, [open], [end], depth)))
  {
    assert ([b] + rest)[1..] == rest;
  }

  lemma {:induction false} MatchSkips(p: seq<Byte>, rest: seq<Byte>, open: Byte, end: Byte, depth: int)
    requires Pair(open, end) && NoBrackets(p)
    ensures Matching(p + rest, open, end, depth) == Plus(|p|, Matching(rest, open, end, depth))
    decreases |p|
  {
    hide Matching;
    if p == [] {
      assert p + rest == rest;
    } else {
      assert p + rest == [p[0]] + (p[1..] + rest);
      assert !IsBracket(p[0]);
      MatchStep(p[0], p[1..] + rest, open, end, depth);
      MatchSkips(p[1..], rest, open, end, depth);
    }
  }

  lemma LeafHasNoBrackets(l: Layout)
    requires Printable(l) && l.children == []
    ensures NoBrackets(Print(l))
  {
    hide HeaderText;
    HeaderHasNoBrackets(l);
    if l.paneID != [] {
      assert forall i | 0 <= i < |l.paneID[1..]| :: IsDigit(l.paneID[1..][i]);
    }
  }

  /** A printed node leaves the depth where it was. */
  lemma {:induction false} MatchNode(l: Layout, rest: seq<Byte>, open: Byte, end: Byte, depth: nat)
    requires Printable(l) && Pair(open, end) && depth >= 1
    ensures Matching(Print(l) + rest, open, end, depth) == Plus(|Print(l)|, Matching(rest, open, end, depth))
    decreases l, 1
  {
    hide Matching, HeaderText, Print, Printable;
    var head := HeaderText(l);
    HeaderHasNoBrackets(l);
    if l.children == [] {
      LeafHasNoBrackets(l);
      MatchSkips(Print(l), rest, open, end, depth);
    } else {
      PrintOfSplit(l);
      var inner, after := PrintAll(l.children), [Close(l)] + rest;
      assert Print(l) + rest == head + ([Open(l)] + (inner + after));
      MatchSkips(head, [Open(l)] + (inner + after), open, end, depth);
      MatchStep(Open(l), inner + after, open, end, depth);
      var deep := DepthAfter(Open(l), [open], [end], depth);
      MatchAll(l.children, after, open, end, deep);
      MatchStep(Close(l), rest, open, end, deep);
    }
  }

  lemma {:induction false} MatchAll(ls: seq<Layout>, rest: seq<Byte>, open: Byte, end: Byte, depth: nat)
    requires AllPrintable(ls) && Pair(open, end) && depth >= 1
    ensures Matching(PrintAll(ls) + rest, open, end, depth) == Plus(|PrintAll(ls)|, Matching(rest, open, end, depth))
    decreases ls, 0
  {
    hide Matching, Print;
    if ls == [] {
      assert PrintAll(ls) + rest == rest;
    } else if |ls| == 1 {
      MatchNode(ls[0], rest, open, end, depth);
    } else {
      var more := PrintAll(ls[1..]) + rest;
      assert PrintAll(ls) + rest == Print(ls[0]) + ([COMMA] + more);
      MatchNode(ls[0], [COMMA] + more, open, end, depth);
      MatchStep(COMMA, more, open, end, depth);
      MatchAll(ls[1..], rest, open, end, depth);
    }
  }

  // ---- Children are cut where they end ----

  lemma EndPasses(b: Byte, rest: seq<Byte>, depth: int)
    requires b != COMMA || depth != 0 || !AtChild(rest)
    ensures ChildEnd([b] + rest, depth) ==
      1 + ChildEnd(rest, DepthAfter(b, [BRACE, BRACKET], [BRACE_END, BRACKET_END], depth))
  {
    assert ([b] + rest)[1..] == rest;
  }

  lemma {:induction false} EndSkips(p: seq<Byte>, rest: seq<Byte>, depth: int)
    requires NoBrackets(p) && COMMA !in p
    ensures ChildEnd(p + rest, depth) == |p| + ChildEnd(rest, depth)
    decreases |p|
  {
    hide ChildEnd;
    if p == [] {
      assert p + rest == rest;
    } else {
      assert p + rest == [p[0]] + (p[1..] + rest);
      assert !IsBracket(p[0]) && p[0] != COMMA;
      EndPasses(p[0], p[1..] + rest, depth);
      EndSkips(p[1..], rest, depth);
    }
  }

  /** No child starts here, nor behind digits put in front. */
  predicate EndsField(s: seq<Byte>) {
    s == [] || s[0] == COMMA || IsBracket(s[0])
  }

  lemma EndSkipsField(ds: seq<Byte>, rest: seq<Byte>, depth: int)
    requires AllDigits(ds) && EndsField(rest)
    ensures ChildEnd([COMMA] + ds + rest, depth) == 1 + |ds| + ChildEnd(rest, depth)
  {
    hide ChildEnd;
    RunSkips(ds, rest);
    assert [COMMA] + ds + rest == [COMMA] + (ds + rest);
    EndPasses(COMMA, ds + rest, depth);
    EndSkips(ds, rest, depth);
  }

  lemma EndSkipsHeader(l: Layout, rest: seq<Byte>, depth: int)
    requires Printable(l) && EndsField(rest)
    ensures ChildEnd(HeaderText(l) + rest, depth) == |HeaderText(l)| + ChildEnd(rest, depth)
  {
    hide ChildEnd, Decimal, Printable;
    FieldsFit(l);
    var a, b, c, d := Decimal(l.w), Decimal(l.h), Decimal(l.x), Decimal(l.y);
    var s2 := [COMMA] + d + rest;
    var s1 := [COMMA] + c + s2;
    var size := a + [X] + b;
    assert HeaderText(l) + rest == size + s1;
    assert forall i | 0 <= i < |size| :: IsDigit(size[i]) || size[i] == X;
    EndSkips(size, s1, depth);
    EndSkipsField(c, s2, depth);
    EndSkipsField(d, rest, depth);
  }

  lemma PrintOfSplit(l: Layout)
    requires Printable(l) && l.children != []
    ensures AllPrintable(l.children)
    ensures Print(l) == HeaderText(l) + ([Open(l)] + PrintAll(l.children) + [Close(l)])
  {
  }

  lemma EndLeaf(l: Layout, rest: seq<Byte>, depth: nat)
    requires Printable(l) && EndsField(rest) && l.children == []
    ensures ChildEnd(Print(l) + rest, depth) == |Print(l)| + ChildEnd(rest, depth)
  {
    hide ChildEnd, HeaderText, AtChild, Decimal;
    var head := HeaderText(l);
    if l.paneID != [] {
      var after := [COMMA] + l.paneID[1..] + rest;
      assert Print(l) + rest == head + after;
      EndSkipsHeader(l, after, depth);
      EndSkipsField(l.paneID[1..], rest, depth);
    } else {
      assert Print(l) + rest == head + rest;
      EndSkipsHeader(l, rest, depth);
    }
  }

  lemma {:induction false} EndNode(l: Layout, rest: seq<Byte>, depth: nat)
    requires Printable(l) && EndsField(rest)
    ensures ChildEnd(Print(l) + rest, depth) == |Print(l)| + ChildEnd(rest, depth)
    decreases l, 1
  {
    hide ChildEnd, HeaderText, AtChild, Decimal, Print, Printable;
    if l.children == [] {
      EndLeaf(l, rest, depth);
    } else {
      PrintOfSplit(l);
      var head, inner, after := HeaderText(l), PrintAll(l.children), [Close(l)] + rest;
      assert Print(l) + rest == head + ([Open(l)] + (inner + after));
      EndSkipsHeader(l, [Open(l)] + (inner + after), depth);
      EndPasses(Open(l), inner + after, depth);
      EndAll(l.children, after, depth + 1);
      EndPasses(Close(l), rest, depth + 1);
    }
  }

  lemma {:induction false} EndAll(ls: seq<Layout>, rest: seq<Byte>, depth: nat)
    requires AllPrintable(ls) && EndsField(rest) && depth >= 1
    ensures ChildEnd(PrintAll(ls) + rest, depth) == |PrintAll(ls)| + ChildEnd(rest, depth)
    decreases ls, 0
  {
    hide ChildEnd, Print;
    if ls == [] {
      assert PrintAll(ls) + rest == rest;
    } else if |ls| == 1 {
      EndNode(ls[0], rest, depth);
    } else {
      var more := PrintAll(ls[1..]) + rest;
      assert PrintAll(ls) + rest == Print(ls[0]) + ([COMMA] + more);
      EndNode(ls[0], [COMMA] + more, depth);
      EndPasses(COMMA, more, depth);
      EndAll(ls[1..], rest, depth);
    }
  }

  lemma PrintStarts(l: Layout)
    requires Printable(l)
    ensures var n := |Decimal(l.w)|; n < |Print(l)| && Print(l)[..n] == Decimal(l.w) && Print(l)[n] == X
  {
    hide Decimal;
  }

  lemma ChildStarts(ls: seq<Layout>)
    requires AllPrintable(ls) && ls != []
    ensures AtChild(PrintAll(ls))
  {
    hide Decimal, Print;
    var a, s := Decimal(ls[0].w), PrintAll(ls);
    PrintStarts(ls[0]);
    assert s == a + s[|a|..] && s[|a|] == X;
    RunSkips(a, s[|a|..]);
  }

  // ---- The parser inverts the printer ----

  lemma {:induction false} NodeInverts(l: Layout)
    requires Printable(l)
    ensures NodeOf(Print(l)) == Ok(l)
    decreases l, 1
  {
    hide HeaderOf, HeaderText, Matching, ChildrenOf;
    var head := HeaderText(l);
    if l.children != [] {
      var inner := PrintAll(l.children);
      var tail := [Open(l)] + inner + [Close(l)];
      assert Print(l) == head + tail;
      HeaderReads(l, tail);
      BracketCloses(l);
      assert tail[1..1 + |inner|] == inner;
      ChildrenInvert(l.children);
    } else if l.paneID != [] {
      var id := l.paneID[1..];
      HeaderReads(l, [COMMA] + id);
      RunSkips(id, []);
      assert id + [] == id && ([COMMA] + id)[1..] == id;
      assert [PERCENT] + id == l.paneID;
    } else {
      HeaderReads(l, []);
    }
  }

  lemma BracketCloses(l: Layout)
    requires Printable(l) && l.children != []
    ensures var inner := PrintAll(l.children);
      Matching([Open(l)] + inner + [Close(l)], Open(l), Close(l), 0) == Ok(1 + |inner|)
  {
    hide Matching;
    var inner := PrintAll(l.children);
    assert [Open(l)] + inner + [Close(l)] == [Open(l)] + (inner + [Close(l)]);
    MatchStep(Open(l), inner + [Close(l)], Open(l), Close(l), 0);
    MatchAll(l.children, [Close(l)], Open(l), Close(l), 1);
    MatchEnds(Open(l), Close(l));
  }

  lemma MatchEnds(open: Byte, end: Byte)
    requires Pair(open, end)
    ensures Matching([end], open, end, 1) == Ok(0)
  {
  }

  /** The text of several children: the first is cut off where it ends. */
  lemma FirstChild(ls: seq<Layout>)
    requires AllPrintable(ls) && ls != []
    ensures var s := PrintAll(ls); var n := |Print(ls[0])|;
      && 0 < n <= |s| && ChildEnd(s, 0) == n && s[..n] == Print(ls[0])
      && (|ls| == 1 ==> n == |s|)
      && (|ls| > 1 ==> n < |s| && s[n + 1..] == PrintAll(ls[1..]))
  {
    hide Print, ChildEnd, AtChild, Printable;
    var s, first := PrintAll(ls), Print(ls[0]);
    PrintNonempty(ls[0]);
    if |ls| == 1 {
      EndNode(ls[0], [], 0);
      EndOfNothing(0);
      assert first + [] == first && s == first;
    } else {
      var more := PrintAll(ls[1..]);
      EndNode(ls[0], [COMMA] + more, 0);
      ChildStarts(ls[1..]);
      CutHere(more);
      assert s == first + ([COMMA] + more);
    }
  }

  lemma {:induction false} ChildrenInvert(ls: seq<Layout>)
    requires AllPrintable(ls) && ls != []
    ensures ChildrenOf(PrintAll(ls)) == Ok(ls)
    decreases ls, 0
  {
    hide NodeOf, Print, PrintAll, ChildEnd, ChildrenOf, After, Printable;
    var s, n := PrintAll(ls), |Print(ls[0])|;
    NodeInverts(ls[0]);
    FirstChild(ls);
    assert s[0..] == s && s[0..n] == s[..n];
    ChildStep(s, 0, n);
    if |ls| == 1 {
      assert [ls[0]] == ls;
    } else {
      ChildrenInvert(ls[1..]);
      FirstAndRest(ls);
    }
  }

  lemma FirstAndRest(ls: seq<Layout>)
    requires ls != []
    ensures After([ls[0]], Ok(ls[1..])) == Ok(ls)
  {
    assert [ls[0]] + ls[1..] == ls;
  }

  lemma PrintNonempty(l: Layout)
    requires Printable(l)
    ensures |Print(l)| > 0
  {
  }

  lemma EndOfNothing(depth: int)
    ensures ChildEnd([], depth) == 0
  {
  }

  lemma CutHere(more: seq<Byte>)
    requires AtChild(more)
    ensures ChildEnd([COMMA] + more, 0) == 0
  {
    assert ([COMMA] + more)[1..] == more;
  }

  /** Any cookie and a printed pane tree: the parser returns that tree. */
  lemma ParseInvertsPrint(cookie: seq<Byte>, l: Layout)
    requires |cookie| == 4 && Printable(l)
    ensures LayoutOf(cookie + [COMMA] + Print(l)) == Ok(l)
  {
    hide NodeOf, Print;
    var s := cookie + [COMMA] + Print(l);
    assert s[5..] == Print(l) && s[4] == COMMA;
    NodeInverts(l);
  }

  /** Different pane trees print differently. */
  lemma PrintIsInjective(k: Layout, l: Layout)
    requires Printable(k) && Printable(l) && Print(k) == Print(l)
    ensures k == l
  {
    NodeInverts(k);
    NodeInverts(l);
  }

  // ---- Panes left to right ----

  /** Each id stands in the text behind its comma, at strictly increasing places. */
  predicate InOrder(text: seq<Byte>, ids: seq<seq<Byte>>, places: seq<nat>) {
    && |places| == |ids|
    && (forall i | 0 <= i < |ids| :: |ids[i]| > 0 && IdAt(text, ids[i], places[i]))
    && forall i, j | 0 <= i < j < |ids| :: places[i] + |ids[i]| <= places[j]
  }

  predicate IdAt(text: seq<Byte>, id: seq<Byte>, place: nat)
    requires |id| > 0
  {
    place + |id| <= |text| && text[place..place + |id|] == [COMMA] + id[1..]
  }

  function Shifted(places: seq<nat>, offset: nat): (r: seq<nat>)
    ensures |r| == |places| && forall i | 0 <= i < |places| :: r[i] == places[i] + offset
  {
    seq(|places|, i requires 0 <= i < |places| => places[i] + offset)
  }

  lemma InOrderInside(a: seq<Byte>, text: seq<Byte>, b: seq<Byte>, ids: seq<seq<Byte>>, places: seq<nat>)
    requires InOrder(text, ids, places)
    ensures InOrder(a + text + b, ids, Shifted(places, |a|))
  {
    var whole, moved := a + text + b, Shifted(places, |a|);
    forall i | 0 <= i < |ids|
      ensures IdAt(whole, ids[i], moved[i])
    {
      assert IdAt(text, ids[i], places[i]);
      assert whole[moved[i]..moved[i] + |ids[i]|] == text[places[i]..places[i] + |ids[i]|];
    }
  }

  lemma Ends(text: seq<Byte>, ids: seq<seq<Byte>>, places: seq<nat>)
    requires InOrder(text, ids, places)
    ensures forall i | 0 <= i < |ids| :: places[i] + |ids[i]| <= |text|
  {
    assert forall i | 0 <= i < |ids| :: IdAt(text, ids[i], places[i]);
  }

  lemma InOrderJoin(t: seq<Byte>, ids: seq<seq<Byte>>, places: seq<nat>,
                    u: seq<Byte>, more: seq<seq<Byte>>, after: seq<nat>)
    requires InOrder(t, ids, places) && InOrder(u, more, after)
    ensures InOrder(t + u, ids + more, places + Shifted(after, |t|))
  {
    hide IdAt;
    InOrderInside([], t, u, ids, places);
    InOrderInside(t, u, [], more, after);
    assert [] + t + u == t + u && t + u + [] == t + u;
    assert Shifted(places, 0) == places;
    Ends(t, ids, places);
    var all, where := ids + more, places + Shifted(after, |t|);
    forall i, j | 0 <= i < j < |all|
      ensures where[i] + |all[i]| <= where[j]
    {
      assert i < |ids| ==> places[i] + |ids[i]| <= |t|;
    }
  }

  /** The panes of a tree are listed in the order in which they are printed. */
  lemma {:induction false} PanesInOrder(l: Layout) returns (places: seq<nat>)
    requires Printable(l)
    ensures InOrder(Print(l), Panes(l), places)
    decreases l, 1
  {
    hide HeaderText, InOrder;
    var head := HeaderText(l);
    if l.children != [] {
      var inner := PanesOfInOrder(l.children);
      InOrderInside(head + [Open(l)], PrintAll(l.children), [Close(l)], Panes(l), inner);
      assert Print(l) == head + [Open(l)] + PrintAll(l.children) + [Close(l)];
      places := Shifted(inner, |head| + 1);
    } else if l.paneID != [] {
      places := [|head|];
      OneInOrder(head, l.paneID);
    } else {
      places := [];
      NoneInOrder(Print(l));
    }
  }

  lemma {:induction false} PanesOfInOrder(ls: seq<Layout>) returns (places: seq<nat>)
    requires AllPrintable(ls)
    ensures InOrder(PrintAll(ls), PanesOf(ls), places)
    decreases ls, 0
  {
    hide Print, Panes, InOrder;
    if ls == [] {
      places := [];
      NoneInOrder([]);
    } else {
      var first := PanesInOrder(ls[0]);
      var rest := PanesOfInOrder(ls[1..]);
      if |ls| == 1 {
        InOrderJoin(Print(ls[0]), Panes(ls[0]), first, PrintAll(ls[1..]), PanesOf(ls[1..]), rest);
        assert Print(ls[0]) + [] == Print(ls[0]);
        places := first + Shifted(rest, |Print(ls[0])|);
      } else {
        InOrderInside([], Print(ls[0]), [COMMA], Panes(ls[0]), first);
        assert [] + Print(ls[0]) + [COMMA] == Print(ls[0]) + [COMMA];
        InOrderJoin(Print(ls[0]) + [COMMA], Panes(ls[0]), Shifted(first, 0), PrintAll(ls[1..]), PanesOf(ls[1..]), rest);
        places := Shifted(first, 0) + Shifted(rest, |Print(ls[0])| + 1);
      }
    }
  }

  lemma NoneInOrder(text: seq<Byte>)
    ensures InOrder(text, [], [])
  {
  }

  lemma OneInOrder(head: seq<Byte>, id: seq<Byte>)
    requires |id| > 0
    ensures InOrder(head + ([COMMA] + id[1..]), [id], [|head|])
  {
    assert IdAt(head + ([COMMA] + id[1..]), id, |head|);
  }

  /** Some leaf of the tree has this id. */
  ghost predicate LeafHas(l: Layout, id: seq<Byte>)
    decreases l, 1
  {
    if l.children == [] then l.paneID == id && id != [] else LeafIn(l.children, id)
  }

  ghost predicate LeafIn(ls: seq<Layout>, id: seq<Byte>)
    decreases ls, 0
  {
    exists i | 0 <= i < |ls| :: LeafHas(ls[i], id)
  }

  function LeavesWithId(l: Layout): nat
    decreases l, 1
  {
    if l.children == [] then (if l.paneID != [] then 1 else 0) else LeavesIn(l.children)
  }

  function LeavesIn(ls: seq<Layout>): nat
    decreases ls, 0
  {
    if ls == [] then 0 else LeavesWithId(ls[0]) + LeavesIn(ls[1..])
  }

  /** No pane is left out and none is made up: the listed ids are those of the leaves, and as
      many are listed as there are leaves with one. */
  lemma {:induction false} PanesAreAll(l: Layout, id: seq<Byte>)
    ensures id in Panes(l) <==> LeafHas(l, id)
    ensures |Panes(l)| == LeavesWithId(l)
    decreases l, 1
  {
    if l.children != [] {
      PanesOfAreAll(l.children, id);
    }
  }

  lemma {:induction false} PanesOfAreAll(ls: seq<Layout>, id: seq<Byte>)
    ensures id in PanesOf(ls) <==> LeafIn(ls, id)
    ensures |PanesOf(ls)| == LeavesIn(ls)
    decreases ls, 0
  {
    if ls != [] {
      PanesAreAll(ls[0], id);
      PanesOfAreAll(ls[1..], id);
      assert LeafIn(ls, id) <==> LeafHas(ls[0], id) || LeafIn(ls[1..], id) by {
        if i :| 0 <= i < |ls[1..]| && LeafHas(ls[1..][i], id) {
          assert LeafHas(ls[i + 1], id);
        }
        if i :| 1 <= i < |ls| && LeafHas(ls[i], id) {
          assert LeafHas(ls[1..][i - 1], id);
        }
      }
    }
  }
}
