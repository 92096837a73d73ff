/** Printing control sequences (ECMA-48, section 5.4) and what the byte machine
    makes of them when they arrive in the ground state. */
module ControlSequences {
  import opened Bytes
  import opened Terminal

  /** CSI, an optional `?`, parameters, final byte. */
  function CsiBytes(priv: bool, parm: seq<Byte>, final: Byte): seq<Byte> {
    [ESC, 0x5b] + (if priv then [0x3f] else []) + parm + [final]
  }

  /** Bytes that end a control sequence for this machine. */
  predicate IsFinal(b: Byte) {
    !IsParameterByte(b) && b != 0x3f && b != 0x3e && b != 0x3d
  }

  /** Ready for text or for a new sequence. */
  ghost predicate Ready(s: State) {
    Shape(s) && ParmOk(s) && s.input.parser == Ground && !s.panicked
  }

  /** The state in which the final byte arrives. */
  function AtFinal(s: State, priv: bool, parm: seq<Byte>): State {
    s.(input := Input(Csi, parm, priv, s.input.pend))
  }

  function AfterCsi(s: State, priv: bool, parm: seq<Byte>, final: Byte): (t: State)
    requires Shape(s) && AllParameters(parm)
    ensures Shape(t) && ParmOk(t)
  {
    CsiDispatch(AtFinal(s, priv, parm), final)
  }

  lemma {:induction false} RunParameters(s: State, parm: seq<Byte>, rest: seq<Byte>)
    requires Shape(s) && ParmOk(s) && s.input.parser == Csi && !s.panicked && AllParameters(parm)
    ensures var t := s.(input := s.input.(parm := s.input.parm + parm));
            ParmOk(t) && Run(s, parm + rest) == Run(t, rest)
    decreases |parm|
  {
    hide Shape, CsiDispatch;
    var t := s.(input := s.input.(parm := s.input.parm + parm));
    if parm == [] {
      assert parm + rest == rest && s.input.parm + parm == s.input.parm;
    } else {
      var u := s.(input := s.input.(parm := s.input.parm + [parm[0]]));
      assert (parm + rest)[1..] == parm[1..] + rest;
      assert IsParameterByte(parm[0]);
      assert ControlByte(s, parm[0]) == u by { assert Shape(s); }
      assert Shape(u) by { SameShape(s, u); }
      RunParameters(u, parm[1..], rest);
      assert u.input.parm + parm[1..] == s.input.parm + parm;
    }
  }

  lemma SameShape(s: State, t: State)
    requires Shape(s) && t.cfg == s.cfg && t.grid == s.grid && t.cx == s.cx && t.cy == s.cy
    ensures Shape(t)
  {
  }

  lemma RunControl(s: State, c: Byte, rest: seq<Byte>)
    requires Shape(s) && ParmOk(s) && !s.panicked && !IsText(s, c)
    ensures Run(s, [c] + rest) == Run(ControlByte(s, c), rest)
  {
    hide Shape, ControlByte;
    assert ([c] + rest)[1..] == rest;
  }

  /** The introducer brings a ready state to the first parameter. */
  lemma RunIntroducer(s: State, priv: bool, rest: seq<Byte>)
    requires Ready(s)
    ensures Shape(AtFinal(s, priv, []))
    ensures Run(s, [ESC, 0x5b] + (if priv then [0x3f] else []) + rest) == Run(AtFinal(s, priv, []), rest)
  {
    hide Shape, Run;
    var head := if priv then [0x3f] else [];
    var e := InState(s, Escape);
    var c := AtFinal(s, false, []);
    SameShape(s, e);
    SameShape(s, c);
    SameShape(s, AtFinal(s, priv, []));
    assert [ESC, 0x5b] + head + rest == [ESC] + ([0x5b] + (head + rest));
    RunControl(s, ESC, [0x5b] + (head + rest));
    RunControl(e, 0x5b, head + rest);
    if priv {
      RunControl(c, 0x3f, rest);
    } else {
      assert head + rest == rest;
    }
  }

  /** A whole control sequence takes a ready state to the dispatched one. */
  lemma RunCsi(s: State, priv: bool, parm: seq<Byte>, final: Byte, rest: seq<Byte>)
    requires Ready(s) && AllParameters(parm) && IsFinal(final)
    ensures Run(s, CsiBytes(priv, parm, final) + rest) == Run(AfterCsi(s, priv, parm, final), rest)
  {
    hide Shape, CsiDispatch, Run;
    var p := AtFinal(s, priv, []);
    var q := AtFinal(s, priv, parm);
    SameShape(s, q);
    assert CsiBytes(priv, parm, final) + rest
        == [ESC, 0x5b] + (if priv then [0x3f] else []) + (parm + ([final] + rest));
    RunIntroducer(s, priv, parm + ([final] + rest));
    RunParameters(p, parm, [final] + rest);
    assert [] + parm == parm;
    RunControl(q, final, rest);
  }

  lemma RunNothing(s: State)
    requires Shape(s) && ParmOk(s)
    ensures Run(s, []) == s
  {
  }

  // ---- Numerals as parameters ----

  lemma {:induction false} ParamsDecimal(done: seq<nat>, n: nat, tail: seq<Byte>)
    requires AllParameters(tail)
    ensures AllParameters(Decimal(n) + tail)
    ensures ParamsFrom(done, 0, Decimal(n) + tail) == ParamsFrom(done, n, tail)
  {
    if n < 10 {
      assert (Decimal(n) + tail)[1..] == tail;
    } else {
      var last := [0x30 + n % 10];
      assert Decimal(n) + tail == Decimal(n / 10) + (last + tail);
      ParamsDecimal(done, n / 10, last + tail);
      assert (last + tail)[1..] == tail;
    }
  }

  /** Numbers separated by semicolons, as they are printed. */
  function Numerals(ns: seq<nat>): (bs: seq<Byte>)
    ensures AllParameters(bs)
  {
    if ns == [] then []
    else if |ns| == 1 then Decimal(ns[0])
    else Decimal(ns[0]) + [SEMICOLON] + Numerals(ns[1..])
  }

  lemma ParamsSemicolon(done: seq<nat>, n: nat, bs: seq<Byte>)
    requires AllParameters(bs)
    ensures ParamsFrom(done, n, [SEMICOLON] + bs) == ParamsFrom(done + [n], 0, bs)
  {
    assert ([SEMICOLON] + bs)[1..] == bs;
  }

  lemma {:induction false} ParamsFromNumerals(done: seq<nat>, ns: seq<nat>)
    requires ns != []
    ensures ParamsFrom(done, 0, Numerals(ns)) == done + ns
    decreases |ns|
  {
    hide Decimal;
    if |ns| == 1 {
      assert Decimal(ns[0]) + [] == Decimal(ns[0]);
      ParamsDecimal(done, ns[0], []);
    } else {
      var rest := [SEMICOLON] + Numerals(ns[1..]);
      assert Numerals(ns) == Decimal(ns[0]) + rest;
      ParamsDecimal(done, ns[0], rest);
      ParamsSemicolon(done, ns[0], Numerals(ns[1..]));
      ParamsFromNumerals(done + [ns[0]], ns[1..]);
      assert done + [ns[0]] + ns[1..] == done + ns;
    }
  }

  /** The machine reads back every list of numbers it is sent. */
  lemma ParamsInvertNumerals(ns: seq<nat>)
    ensures Params(Numerals(ns)) == ns
  {
    if ns != [] {
      ParamsFromNumerals([], ns);
      NumeralsNonempty(ns);
      assert [] + ns == ns;
    }
  }

  lemma NumeralsNonempty(ns: seq<nat>)
    requires ns != []
    ensures Numerals(ns) != []
  {
  }
}
