/** The tracker next to the terminal model's own parser. */
module TrackerAndModel {
  import opened Bytes
  import opened Terminal
  import opened ControlSequences
  import opened TokenStreams
  import SyncWrap
  import Utf8

  lemma ControlIsToken(priv: bool, parm: seq<Byte>, final: Byte)
    requires AllParameters(parm) && 0x40 <= final <= 0x7e
    ensures TokenStreams.HeldWhole(CsiBytes(priv, parm, final))
  {
    var inside := (if priv then [0x3f] else []) + parm;
    assert forall i | 0 <= i < |parm| :: IsParameterByte(parm[i]);
    HeldToFinal(0x5b, inside, final);
    assert [ESC, 0x5b] + inside + [final] == CsiBytes(priv, parm, final);
  }

  /** Both expect the same number of bytes behind a lead byte. */
  lemma SameRunes(b: Byte)
    ensures SyncWrap.RuneRemaining(b) == if Utf8.SequenceLength(b) >= 2 then Utf8.SequenceLength(b) - 1 else 0
  {
  }

  /** The model's parser after part of a control sequence. */
  lemma ModelInside(s: State, priv: bool, parm: seq<Byte>, final: Byte, k: nat)
    requires Ready(s) && AllParameters(parm) && 0 < k < |CsiBytes(priv, parm, final)|
    ensures Run(s, CsiBytes(priv, parm, final)[..k]).input.parser in {Escape, Csi}
  {
    hide Run, Shape;
    var all := CsiBytes(priv, parm, final);
    var head := if priv then [0x3f] else [];
    if k == 1 {
      assert all[..1] == [ESC] + [];
      RunControl(s, ESC, []);
      RunNothing(ControlByte(s, ESC));
    } else if k < 2 + |head| {
      assert all[..k] == [ESC, 0x5b] + [] + [];
      RunIntroducer(s, false, []);
      RunNothing(AtFinal(s, false, []));
    } else {
      var j := k - 2 - |head|;
      assert all[..k] == [ESC, 0x5b] + head + parm[..j];
      assert parm[..j] + [] == parm[..j];
      RunIntroducer(s, priv, parm[..j]);
      RunParameters(AtFinal(s, priv, []), parm[..j], []);
      assert [] + parm[..j] == parm[..j];
      SameShape(s, AtFinal(s, priv, parm[..j]));
      RunNothing(AtFinal(s, priv, parm[..j]));
    }
  }

  /** Inside every control sequence as the model reads it, model and tracker agree: as long as
      the model is inside, the tracker holds all of it back; when it has taken effect, all of
      it may be emitted. */
  lemma HeldWhileInside(s: State, priv: bool, parm: seq<Byte>, final: Byte, k: nat)
    requires Ready(s) && AllParameters(parm) && 0x40 <= final <= 0x7e && 0 < k <= |CsiBytes(priv, parm, final)|
    ensures var bs := CsiBytes(priv, parm, final)[..k];
      && (Run(s, bs).input.parser != Ground <==> k < |CsiBytes(priv, parm, final)|)
      && SyncWrap.Split(bs) == if Run(s, bs).input.parser == Ground then k else 0
  {
    hide Shape, Run;
    var all := CsiBytes(priv, parm, final);
    ControlIsToken(priv, parm, final);
    if k < |all| {
      ModelInside(s, priv, parm, final, k);
    } else {
      assert all[..k] == all && all + [] == all;
      RunCsi(s, priv, parm, final, []);
      RunNothing(AfterCsi(s, priv, parm, final));
    }
  }

  /** ... but not behind a `>` or `=`, with which the model goes on. */
  lemma NotHeldBehindPrivate(s: State, b: Byte)
    requires Ready(s) && b in {0x3d, 0x3e}
    ensures var bs := [ESC, 0x5b, b]; Run(s, bs).input.parser == Csi && SyncWrap.Split(bs) == 3
  {
    var c := AtFinal(s, false, []);
    SameShape(s, c);
    PrivateEnds([], b);
    assert [ESC, 0x5b] + [] + [b] == [ESC, 0x5b, b];
    hide Shape, Run, SyncWrap.Tracked;
    RunIntroducer(s, false, [b]);
    assert [b] + [] == [b];
    RunControl(c, b, []);
    RunNothing(c);
  }
}
