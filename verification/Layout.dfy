/** The tmux layout parser of internal/tmuxcc/layout.go. Strings are byte sequences. */
module LayoutParser {
  import opened Bytes

  const X: Byte := 0x78
  const COMMA: Byte := 0x2c
  const PERCENT: Byte := 0x25
  const MINUS: Byte := 0x2d
  const PLUS: Byte := 0x2b
  const BRACE: Byte := 0x7b
  const BRACE_END: Byte := 0x7d
  const BRACKET: Byte := 0x5b
  const BRACKET_END: Byte := 0x5d
  const INT_LIMIT: nat := 0x8000_0000_0000_0000

  datatype Error = MissingCookie | MissingX | MissingComma | BadNumber | Unbalanced

  datatype Result<T> = Ok(value: T) | Err(error: Error) {
    predicate IsFailure() {
      Err?
    }

    function PropagateFailure<U>(): Result<U>
      requires Err?
    {
      Err(error)
    }

    function Extract(): T
      requires Ok?
    {
      value
    }
  }

  /** A pane (no children) or a split. `paneID` is "%N" for a pane, empty for a split. */
  datatype Layout = Layout(w: int, h: int, x: int, y: int, paneID: seq<Byte>, vertical: bool, children: seq<Layout>)

  // ---- What the parser computes ----

  predicate AllDigits(s: seq<Byte>) {
    forall i | 0 <= i < |s| :: IsDigit(s[i])
  }

  /** Length of the run of digits at the start. */
  function DigitRun(s: seq<Byte>): (n: nat)
    ensures n <= |s| && AllDigits(s[..n]) && (n < |s| ==> !IsDigit(s[n]))
  {
    if s == [] || !IsDigit(s[0]) then 0
    else
      var n := DigitRun(s[1..]);
      assert forall i | 1 <= i < n + 1 :: s[i] == s[1..][..n][i - 1];
      n + 1
  }

  /** Position of the first byte among `stops`, or the length. */
  function Until(s: seq<Byte>, stops: seq<Byte>): (n: nat)
    ensures n <= |s| && (n < |s| ==> s[n] in stops) && forall i | 0 <= i < n :: s[i] !in stops
  {
    if s == [] || s[0] in stops then 0 else 1 + Until(s[1..], stops)
  }

  function NumberOf(ds: seq<Byte>): nat
    requires AllDigits(ds)
  {
    if ds == [] then 0 else NumberOf(ds[..|ds| - 1]) * 10 + (ds[|ds| - 1] - 0x30)
  }

  /** strconv.Atoi: an optional sign, one digit or more, within 64 bits. */
  function Atoi(s: seq<Byte>): Result<int> {
    var signed := s != [] && (s[0] == MINUS || s[0] == PLUS);
    var ds := if signed then s[1..] else s;
    if ds == [] || !AllDigits(ds) then Err(BadNumber)
    else
      var n: int := NumberOf(ds);
      if signed && s[0] == MINUS then
        if n > INT_LIMIT then Err(BadNumber) else Ok(-n)
      else if n >= INT_LIMIT then Err(BadNumber) else Ok(n)
  }

  /** A number up to the byte `stop`, and what follows it. */
  function Field(s: seq<Byte>, stop: Byte, missing: Error): (r: Result<(int, seq<Byte>)>)
    ensures r.Ok? ==> |r.value.1| < |s|
  {
    var n := Until(s, [stop]);
    if n == |s| then Err(missing)
    else
      var v :- Atoi(s[..n]);
      Ok((v, s[n + 1..]))
  }

  datatype Header = Header(w: int, h: int, x: int, y: int, tail: seq<Byte>)

  function HeaderOf(s: seq<Byte>): (r: Result<Header>)
    ensures r.Ok? ==> |r.value.tail| < |s| && (r.value.tail != [] ==> r.value.tail[0] in [COMMA, BRACE, BRACKET])
  {
    var f1 :- Field(s, X, MissingX);
    var f2 :- Field(f1.1, COMMA, MissingComma);
    var f3 :- Field(f2.1, COMMA, MissingComma);
    var e := Until(f3.1, [COMMA, BRACE, BRACKET]);
    var y :- Atoi(f3.1[..e]);
    Ok(Header(f1.0, f2.0, f3.0, y, f3.1[e..]))
  }

  /** Distance to the byte that brings the depth of one kind of bracket back to 0. */
  function Matching(s: seq<Byte>, open: Byte, end: Byte, depth: int): (r: Result<nat>)
    ensures r.Ok? ==> r.value < |s|
    ensures r.Ok? && s[0] == open && depth == 0 && open != end ==> 1 <= r.value
  {
    if s == [] then Err(Unbalanced)
    else if s[0] != open && s[0] == end && depth - 1 == 0 then Ok(0)
    else
      var n :- Matching(s[1..], open, end, DepthAfter(s[0], [open], [end], depth));
      Ok(n + 1)
  }

  function DepthAfter(b: Byte, opens: seq<Byte>, ends: seq<Byte>, depth: int): int {
    if b in opens then depth + 1 else if b in ends then depth - 1 else depth
  }

  /** A child starts here: a width and an `x`. */
  predicate AtChild(s: seq<Byte>) {
    var n := DigitRun(s);
    0 < n < |s| && s[n] == X
  }

  /** Length of the first child of a split's contents: up to a top-level comma in front of
      another child, or to the end. */
  function ChildEnd(s: seq<Byte>, depth: int): (n: nat)
    ensures n <= |s| && (n < |s| ==> |s[n + 1..]| > 0)
  {
    if s == [] then 0
    else if s[0] == COMMA && depth == 0 && AtChild(s[1..]) then 0
    else 1 + ChildEnd(s[1..], DepthAfter(s[0], [BRACE, BRACKET], [BRACE_END, BRACKET_END], depth))
  }

  function NodeOf(s: seq<Byte>): Result<Layout>
    decreases |s|, 0
  {
    var hd :- HeaderOf(s);
    if hd.tail == [] then Ok(Layout(hd.w, hd.h, hd.x, hd.y, [], false, []))
    else if hd.tail[0] == COMMA then
      var id := hd.tail[1..];
      Ok(Layout(hd.w, hd.h, hd.x, hd.y, [PERCENT] + id[..DigitRun(id)], false, []))
    else
      var vertical := hd.tail[0] == BRACKET;
      var n :- Matching(hd.tail, hd.tail[0], if vertical then BRACKET_END else BRACE_END, 0);
      var children :- ChildrenOf(hd.tail[1..n]);
      Ok(Layout(hd.w, hd.h, hd.x, hd.y, [], vertical, children))
  }

  function ChildrenOf(s: seq<Byte>): Result<seq<Layout>>
    decreases |s|, 1
  {
    if s == [] then Ok([])
    else
      var n := ChildEnd(s, 0);
      var child :- NodeOf(s[..n]);
      if n == |s| then Ok([child])
      else
        var more :- ChildrenOf(s[n + 1..]);
        Ok([child] + more)
  }

  function LayoutOf(s: seq<Byte>): Result<Layout> {
    if |s| < 5 || s[4] != COMMA then Err(MissingCookie) else NodeOf(s[5..])
  }

  /** Pane ids, left to right. */
  function Panes(l: Layout): seq<seq<Byte>>
    decreases l, 1
  {
    if l.children == [] then
      if l.paneID != [] then [l.paneID] else []
    else PanesOf(l.children)
  }

  function PanesOf(ls: seq<Layout>): seq<seq<Byte>>
    decreases ls, 0
  {
    if ls == [] then [] else Panes(ls[0]) + PanesOf(ls[1..])
  }

  // ---- The loops of the source ----

  method MatchBracket(s: seq<Byte>, open: Byte, end: Byte) returns (r: Result<nat>)
    requires open != end
    ensures r == Matching(s, open, end, 0)
  {
    var depth := 0;
    assert s[0..] == s;
    for i := 0 to |s|
      invariant Matching(s, open, end, 0) == Plus(i, Matching(s[i..], open, end, depth))
    {
      assert s[i..][1..] == s[i + 1..];
      if s[i] == open {
        depth := depth + 1;
      } else if s[i] == end {
        depth := depth - 1;
        if depth == 0 {
          return Ok(i);
        }
      }
    }
    r := Err(Unbalanced);
  }

  function Plus(k: nat, r: Result<nat>): Result<nat> {
    if r.Ok? then Ok(k + r.value) else r
  }

  method IsChildBoundary(s: seq<Byte>) returns (r: bool)
    ensures r == AtChild(s)
  {
    var i := 0;
    assert s[0..] == s;
    while i < |s| && s[i] >= 0x30 && s[i] <= 0x39
      invariant 0 <= i <= |s| && DigitRun(s) == i + DigitRun(s[i..])
    {
      assert s[i..][1..] == s[i + 1..];
      i := i + 1;
    }
    r := i > 0 && i < |s| && s[i] == X;
  }

  /** The fields in front of a node's id or children. */
  method ParseHeader(s: seq<Byte>) returns (r: Result<Header>)
    ensures r == HeaderOf(s)
  {
    hide Atoi, Until;
    var rest := s;
    var xi := Until(rest, [X]);
    if xi == |rest| {
      return Err(MissingX);
    }
    var w :- Atoi(rest[..xi]);
    rest := rest[xi + 1..];
    var ci := Until(rest, [COMMA]);
    if ci == |rest| {
      return Err(MissingComma);
    }
    var h :- Atoi(rest[..ci]);
    rest := rest[ci + 1..];
    ci := Until(rest, [COMMA]);
    if ci == |rest| {
      return Err(MissingComma);
    }
    var x :- Atoi(rest[..ci]);
    rest := rest[ci + 1..];
    var yEnd := Until(rest, [COMMA, BRACE, BRACKET]);
    var y :- Atoi(rest[..yEnd]);
    r := Ok(Header(w, h, x, y, rest[yEnd..]));
  }

  method ParseNode(s: seq<Byte>) returns (r: Result<Layout>)
    ensures r == NodeOf(s)
    decreases |s|, 0
  {
    hide HeaderOf, Matching, ChildrenOf, AllDigits;
    var hd :- ParseHeader(s);
    var tail := hd.tail;
    if tail == [] {
      return Ok(Layout(hd.w, hd.h, hd.x, hd.y, [], false, []));
    }
    if tail[0] == COMMA {
      var id := tail[1..];
      var end := 0;
      assert id[0..] == id;
      while end < |id| && id[end] >= 0x30 && id[end] <= 0x39
        invariant 0 <= end <= |id| && DigitRun(id) == end + DigitRun(id[end..])
      {
        assert id[end..][1..] == id[end + 1..];
        end := end + 1;
      }
      return Ok(Layout(hd.w, hd.h, hd.x, hd.y, [PERCENT] + id[..end], false, []));
    }
    var vertical := tail[0] == BRACKET;
    var n :- MatchBracket(tail, tail[0], if vertical then BRACKET_END else BRACE_END);
    var children :- ParseChildren(tail[1..n]);
    r := Ok(Layout(hd.w, hd.h, hd.x, hd.y, [], vertical, children));
  }

  function After(out: seq<Layout>, r: Result<seq<Layout>>): Result<seq<Layout>> {
    if r.Ok? then Ok(out + r.value) else r
  }

  lemma AfterNothing(r: Result<seq<Layout>>)
    ensures After([], r) == r
  {
    if r.Ok? {
      assert [] + r.value == r.value;
    }
  }

  lemma AfterOk(out: seq<Layout>, child: Layout)
    ensures After(out, Ok([child])) == Ok(out + [child])
  {
  }

  lemma NoChildren()
    ensures ChildrenOf([]) == Ok([])
  {
  }

  lemma AfterError(out: seq<Layout>, e: Error)
    ensures After(out, Err(e)) == Err(e)
  {
  }

  lemma AfterAfter(out: seq<Layout>, child: Layout, r: Result<seq<Layout>>)
    ensures After(out, After([child], r)) == After(out + [child], r)
  {
    if r.Ok? {
      assert out + ([child] + r.value) == (out + [child]) + r.value;
    }
  }

  /** The child between `start` and the cut at `i`, taken off the front. */
  lemma ChildStep(s: seq<Byte>, start: nat, i: nat)
    requires start < |s| && start <= i <= |s| && ChildEnd(s[start..], 0) == i - start
    ensures var r := NodeOf(s[start..i]);
      ChildrenOf(s[start..]) ==
      if r.Err? then Err(r.error) else if i == |s| then Ok([r.value]) else After([r.value], ChildrenOf(s[i + 1..]))
  {
    hide NodeOf, ChildEnd;
    assert s[start..][..i - start] == s[start..i];
    assert i < |s| ==> s[start..][i - start + 1..] == s[i + 1..];
  }

  lemma EndStep(s: seq<Byte>, i: nat, depth: int)
    requires i < |s|
    ensures ChildEnd(s[i..], depth) ==
      if s[i] == COMMA && depth == 0 && AtChild(s[i + 1..]) then 0
      else 1 + ChildEnd(s[i + 1..], DepthAfter(s[i], [BRACE, BRACKET], [BRACE_END, BRACKET_END], depth))
  {
    hide AtChild, DepthAfter;
    assert s[i..][1..] == s[i + 1..];
  }

  /** One pass over the contents of a split; `start` is where the current child begins. */
  method ParseChildren(s: seq<Byte>) returns (r: Result<seq<Layout>>)
    ensures r == ChildrenOf(s)
    decreases |s|, 1
  {
    hide NodeOf, ChildrenOf, ChildEnd, AtChild, After;
    var out: seq<Layout> := [];
    var depth := 0;
    var start := 0;
    var i := 0;
    assert s[0..] == s;
    AfterNothing(ChildrenOf(s));
    while i < |s|
      invariant 0 <= start <= i <= |s|
      invariant start == |s| ==> s == [] && out == []
      invariant ChildrenOf(s) == After(out, ChildrenOf(s[start..]))
      invariant ChildEnd(s[start..], 0) == i - start + ChildEnd(s[i..], depth)
    {
      EndStep(s, i, depth);
      if s[i] == BRACE || s[i] == BRACKET {
        depth := depth + 1;
      } else if s[i] == BRACE_END || s[i] == BRACKET_END {
        depth := depth - 1;
      } else if s[i] == COMMA && depth == 0 {
        var boundary := IsChildBoundary(s[i + 1..]);
        if boundary {
          var child := ParseNode(s[start..i]);
          ChildStep(s, start, i);
          if child.Err? {
            AfterError(out, child.error);
            return Err(child.error);
          }
          AfterAfter(out, child.value, ChildrenOf(s[i + 1..]));
          out := out + [child.value];
          start := i + 1;
        }
      }
      i := i + 1;
    }
    if start < |s| {
      var child := ParseNode(s[start..]);
      assert s[start..] == s[start..|s|];
      ChildStep(s, start, |s|);
      if child.Err? {
        AfterError(out, child.error);
        return Err(child.error);
      }
      AfterOk(out, child.value);
      out := out + [child.value];
    } else {
      NoChildren();
    }
    r := Ok(out);
  }

  method ParseLayout(s: seq<Byte>) returns (r: Result<Layout>)
    ensures r == LayoutOf(s)
  {
    if |s| < 5 || s[4] != COMMA {
      return Err(MissingCookie);
    }
    r := ParseNode(s[5..]);
  }

  method LeafPanes(l: Layout) returns (out: seq<seq<Byte>>)
    ensures out == Panes(l)
    decreases l
  {
    if |l.children| == 0 {
      if l.paneID != [] {
        return [l.paneID];
      }
      return [];
    }
    out := [];
    assert l.children[0..] == l.children;
    for i := 0 to |l.children|
      invariant Panes(l) == out + PanesOf(l.children[i..])
    {
      assert l.children[i..][1..] == l.children[i + 1..];
      var more := LeafPanes(l.children[i]);
      out := out + more;
    }
  }
}
