/** One pass of ReconcileRemote (internal/cloud/agent/remotesync.go) over the tmux windows.
    Any tmux call may fail; which calls did is history. */
module Reconcile {

  type Id = nat

  /** `marker` is empty if the window has none; `arrow` says that its name starts with the
      arrow of remote windows. */
  datatype Window = Window(marker: string, arrow: bool)

  type Windows = map<Id, Window>

  /** Which kinds of calls have failed so far. */
  datatype Trouble = Trouble(create: bool, mark: bool, kill: bool, legacyList: bool)

  // ---- Desired markers ----

  datatype Session = Session(key: string, sessionID: string, shortDir: string)

  /** A PC and its sessions, or None if they could not be listed. */
  datatype Sessions = None | Listed(all: seq<Session>)
  datatype PC = PC(name: string, sessions: Sessions)

  /** All PCs, or NoPCs if the list could not be had. */
  datatype PCList = NoPCs | AllPCs(pcs: seq<PC>)

  function AttachMarker(pc: string, sid: string): (m: string)
    ensures m != ""
  {
    "cloud attach " + sid + " --pc " + pc
  }

  const ATTACH: string := "cloud attach "
  const ON_PC: string := " --pc "

  lemma ShorterHasSpace(a: string, b: string, x: string, y: string)
    requires a + ON_PC + x == b + ON_PC + y
    ensures |a| < |b| ==> b[|a|] == ' '
    ensures |a| == |b| ==> a == b && x == y
  {
    var s, t := a + ON_PC + x, b + ON_PC + y;
    assert s[|a|] == ' ';
    assert |a| < |b| ==> t[|a|] == b[|a|];
    assert s[..|a|] == a && t[..|b|] == b && s[|a| + 6..] == x && t[|b| + 6..] == y;
  }

  /** Session ids without a space: different sessions have different markers. */
  lemma MarkersDiffer(pc: string, sid: string, other: string, id: string)
    requires ' ' !in sid && ' ' !in id && AttachMarker(pc, sid) == AttachMarker(other, id)
    ensures pc == other && sid == id
  {
    var s, t := AttachMarker(pc, sid), AttachMarker(other, id);
    assert s == ATTACH + (sid + ON_PC + pc) && t == ATTACH + (id + ON_PC + other);
    assert s[|ATTACH|..] == sid + ON_PC + pc && t[|ATTACH|..] == id + ON_PC + other;
    ShorterHasSpace(sid, id, pc, other);
    ShorterHasSpace(id, sid, other, pc);
  }

  /** With spaces two sessions can share one. */
  lemma MarkersCanMeet()
    ensures AttachMarker("c", "a --pc b") == AttachMarker("b --pc c", "a")
  {
  }

  function SessSID(s: Session): string {
    if s.key != "" then s.key else s.sessionID
  }

  predicate Foreign(self: string, pc: PC) {
    pc.name != self && pc.name != ""
  }

  /** Some session of some foreign PC has this marker. */
  ghost predicate Wanted(self: string, pcs: seq<PC>, m: string) {
    exists i: nat, j: nat :: WantedAt(self, pcs, m, i, j)
  }

  predicate WantedAt(self: string, pcs: seq<PC>, m: string, i: nat, j: nat) {
    && i < |pcs| && Foreign(self, pcs[i]) && pcs[i].sessions.Listed? && j < |pcs[i].sessions.all|
    && SessSID(pcs[i].sessions.all[j]) != "" && m == AttachMarker(pcs[i].name, SessSID(pcs[i].sessions.all[j]))
  }

  /** Session `j` of PC `i` asks for the marker of its key, or of its session id if it has no
      key; without either, and on this PC or one without a name, it asks for none. */
  lemma WantedBySession(self: string, pcs: seq<PC>, m: string, i: nat, j: nat)
    requires i < |pcs| && pcs[i].sessions.Listed? && j < |pcs[i].sessions.all|
    ensures var name, s := pcs[i].name, pcs[i].sessions.all[j];
      WantedAt(self, pcs, m, i, j) <==>
      && name != self && name != "" && (s.key != "" || s.sessionID != "")
      && m == "cloud attach " + (if s.key == "" then s.sessionID else s.key) + " --pc " + name
  {
  }

  datatype Meta = Meta(pc: string, sid: string, dir: string)

  method Desired(self: string, pcs: seq<PC>) returns (ok: bool, desired: map<string, Meta>)
    ensures ok == forall i | 0 <= i < |pcs| && Foreign(self, pcs[i]) :: pcs[i].sessions.Listed?
    ensures ok ==> forall m :: m in desired <==> Wanted(self, pcs, m)
    ensures "" !in desired
  {
    desired := map[];
    for i := 0 to |pcs|
      invariant "" !in desired
      invariant forall k | 0 <= k < i && Foreign(self, pcs[k]) :: pcs[k].sessions.Listed?
      invariant forall m :: m in desired <==> exists k: nat, j: nat :: k < i && WantedAt(self, pcs, m, k, j)
    {
      if pcs[i].name == self || pcs[i].name == "" {
        continue;
      }
      if pcs[i].sessions.None? {
        return false, desired;
      }
      var all := pcs[i].sessions.all;
      for j := 0 to |all|
        invariant "" !in desired
        invariant forall m :: m in desired <==>
          || (exists k: nat, l: nat :: k < i && WantedAt(self, pcs, m, k, l))
          || (exists l: nat :: l < j && WantedAt(self, pcs, m, i, l))
      {
        var sid := SessSID(all[j]);
        if sid == "" {
          continue;
        }
        var dir := if all[j].shortDir == "" then sid else all[j].shortDir;
        var m := AttachMarker(pcs[i].name, sid);
        assert WantedAt(self, pcs, m, i, j);
        desired := desired[m := Meta(pcs[i].name, sid, dir)];
      }
    }
    ok := true;
  }

  // ---- What a pass does to the windows ----

  predicate At(w: Windows, id: Id, m: string) {
    id in w && w[id].marker == m
  }

  ghost predicate Has(w: Windows, m: string) {
    exists id :: At(w, id, m)
  }

  ghost predicate AtMostOne(w: Windows, m: string) {
    forall i, j :: At(w, i, m) && At(w, j, m) ==> i == j
  }

  /** Windows without a marker and an arrow are nobody's business but the user's. */
  predicate IsLegacy(unix: bool, x: Window) {
    unix && x.marker == "" && x.arrow
  }

  predicate IsUsers(unix: bool, x: Window) {
    x.marker == "" && !IsLegacy(unix, x)
  }

  /** The windows with a marker, as MarkedWindows lists them. */
  function Marked(w: Windows): (c: map<Id, string>)
    ensures forall id :: id in c <==> id in w && w[id].marker != ""
    ensures forall id | id in c :: c[id] == w[id].marker
  {
    map id | id in w && w[id].marker != "" :: w[id].marker
  }

  /** The guard against running away. */
  predicate Capped(desired: nat, marked: nat) {
    marked > desired * 3 + 8
  }

  /** Some of the windows `gone` were killed, and nothing else happened; all of them, if
      `all`. */
  ghost predicate Killed(w: Windows, v: Windows, gone: set<Id>, all: bool) {
    && (forall id | id in v :: id in w && v[id] == w[id])
    && (forall id | id in w && id !in gone :: id in v)
    && (all ==> forall id | id in gone :: id !in v)
  }

  class Tmux {
    const unix: bool
    var windows: Windows
    /** Above every id ever used. */
    var next: Id
    ghost var trouble: Trouble

    ghost predicate Valid()
      reads this
    {
      (forall id | id in windows :: id < next) && (!unix ==> !trouble.mark)
    }

    constructor (unix: bool)
      ensures Valid() && windows == map[] && this.unix == unix
    {
      this.unix := unix;
      windows, next, trouble := map[], 0, Trouble(false, false, false, false);
    }

    method MarkedWindows() returns (ok: bool, cur: map<Id, string>)
      ensures ok ==> cur == Marked(windows)
    {
      ok := *;
      cur := Marked(windows);
    }

    method LegacyAttachWindows() returns (ok: bool, ids: set<Id>)
      modifies `trouble
      ensures trouble == old(trouble).(legacyList := old(trouble).legacyList || !ok)
      ensures ok ==> forall id :: id in ids <==> id in windows && IsLegacy(unix, windows[id])
      ensures !unix ==> ok && ids == {}
    {
      ok := *;
      ok := ok || !unix;
      ids := set id | id in windows && IsLegacy(unix, windows[id]);
      if !ok {
        trouble := trouble.(legacyList := true);
      }
    }

    method KillWindowID(id: Id)
      requires Valid()
      modifies `windows, `trouble
      ensures Valid() && (old(trouble).kill ==> trouble.kill) && trouble == old(trouble).(kill := trouble.kill)
      ensures Killed(old(windows), windows, {id}, !trouble.kill)
    {
      var ok: bool := *;
      if ok {
        windows := windows - {id};
      } else {
        trouble := trouble.(kill := true);
      }
    }

    /** On unix the marker is set in a second call; elsewhere it is in the name from the
        beginning. */
    method NewMarkedWindow(marker: string) returns (created: bool)
      requires Valid() && marker != ""
      modifies `windows, `next, `trouble
      ensures Valid() && next == old(next) + 1
      ensures !created ==> windows == old(windows) && trouble == old(trouble).(create := true)
      ensures created ==>
        || (windows == old(windows)[old(next) := Window(marker, true)] && trouble == old(trouble))
        || (unix && windows == old(windows)[old(next) := Window("", true)] && trouble == old(trouble).(mark := true))
    {
      created := *;
      var marked: bool := *;
      if created {
        if marked || !unix {
          windows := windows[next := Window(marker, true)];
        } else {
          windows := windows[next := Window("", true)];
          trouble := trouble.(mark := true);
        }
      } else {
        trouble := trouble.(create := true);
      }
      next := next + 1;
    }
  }

  ghost predicate Missing(w: Windows, markers: set<string>) {
    exists m :: m in markers && !Has(w, m)
  }

  lemma MissingMore(w: Windows, markers: set<string>, m: string)
    ensures Missing(w, markers) || !Has(w, m) ==> Missing(w, markers + {m})
  {
    if x :| x in markers && !Has(w, x) {
      assert x in markers + {m};
    }
    assert m in markers + {m};
  }

  /** Old windows are as they were and gone only for a marker in `done`; new ones have ids
      from `first` on and were made for a marker in `done` that had no window. */
  ghost predicate WindowsOk(before: Windows, now: Windows, done: set<string>, capped: bool, first: Id, unmarked: bool) {
    && (forall id | id in now && id < first :: id in before && now[id] == before[id])
    && (forall id | id in before && before[id].marker !in done :: id in now)
    && (forall id | id in now && id >= first ::
          !capped && now[id].arrow
          && if now[id].marker == "" then unmarked && Missing(before, done)
             else now[id].marker in done && !Has(before, now[id].marker))
  }

  /** A marker in `done` keeps a window if it had one; it gets one if it had none; and it
      has no second one. */
  ghost predicate MarkersOk(before: Windows, now: Windows, done: set<string>, capped: bool, t: Trouble) {
    && (forall m | m in done && Has(before, m) :: Has(now, m))
    && (forall m | m in done && !Has(before, m) && !capped && !t.create && !t.mark :: Has(now, m))
    && (forall m | m in done && (!Has(before, m) || !t.kill) :: AtMostOne(now, m))
  }

  /** How far a pass has come. */
  ghost predicate Progress(before: Windows, now: Windows, done: set<string>, capped: bool, first: Id, t: Trouble) {
    WindowsOk(before, now, done, capped, first, t.mark) && MarkersOk(before, now, done, capped, t)
  }

  lemma ProgressStart(before: Windows, capped: bool, first: Id, t: Trouble)
    requires forall id | id in before :: id < first
    ensures Progress(before, before, {}, capped, first, t)
  {
  }

  /** A marker with windows: one of them is kept, the others are killed. */
  lemma ProgressKeep(before: Windows, w: Windows, v: Windows, done: set<string>, capped: bool, first: Id,
                     t: Trouble, u: Trouble, m: string, ids: set<Id>, kept: Id)
    requires Progress(before, w, done, capped, first, t) && m !in done && m != ""
    requires forall id | id in before :: id < first
    requires forall id :: id in ids <==> At(before, id, m)
    requires kept in ids && Killed(w, v, ids - {kept}, !u.kill) && (t.kill ==> u.kill) && u == t.(kill := u.kill)
    ensures Progress(before, v, done + {m}, capped, first, u)
  {
    MissingMore(before, done, m);
    hide Missing;
    assert forall id, x | At(w, id, x) && x != m :: At(v, id, x);
    assert forall id, x | At(v, id, x) :: At(w, id, x);
    assert At(v, kept, m);
    forall x | x in done && Has(before, x)
      ensures Has(v, x)
    {
      var id :| At(w, id, x);
      assert At(v, id, x);
    }
    forall x | x in done && !Has(before, x) && !capped && !u.create && !u.mark
      ensures Has(v, x)
    {
      var id :| At(w, id, x);
      assert At(v, id, x);
    }
    assert !u.kill ==> forall id | At(v, id, m) :: id == kept;
  }

  lemma NoneYet(before: Windows, w: Windows, done: set<string>, capped: bool, first: Id, unmarked: bool, m: string)
    requires WindowsOk(before, w, done, capped, first, unmarked) && m !in done && m != "" && !Has(before, m)
    ensures !Has(w, m)
  {
    forall id: Id | At(w, id, m)
      ensures false
    {
      assert id < first ==> At(before, id, m);
    }
  }

  /** A marker without windows, for which none was made. */
  lemma ProgressSkip(before: Windows, w: Windows, done: set<string>, capped: bool, first: Id,
                     t: Trouble, u: Trouble, m: string)
    requires Progress(before, w, done, capped, first, t) && m !in done && m != "" && !Has(before, m)
    requires (capped && u == t) || u == t.(create := true)
    ensures Progress(before, w, done + {m}, capped, first, u)
  {
    MissingMore(before, done, m);
    NoneYet(before, w, done, capped, first, t.mark, m);
    assert forall id: Id :: !At(w, id, m);
  }

  /** A marker without windows, for which one was made; `mark` is empty if marking failed. */
  lemma ProgressCreate(before: Windows, w: Windows, done: set<string>, first: Id, next: Id,
                       t: Trouble, u: Trouble, m: string, mark: string)
    requires Progress(before, w, done, false, first, t) && m !in done && m != "" && !Has(before, m) && "" !in done
    requires first <= next && forall id | id in w :: id < next
    requires (mark == m && u == t) || (mark == "" && u == t.(mark := true))
    ensures Progress(before, w[next := Window(mark, true)], done + {m}, false, first, u)
  {
    MissingMore(before, done, m);
    NoneYet(before, w, done, false, first, t.mark, m);
    CreateMarkers(before, w, done, next, t, u, m, mark);
    hide MarkersOk;
  }

  lemma CreateMarkers(before: Windows, w: Windows, done: set<string>, next: Id,
                      t: Trouble, u: Trouble, m: string, mark: string)
    requires MarkersOk(before, w, done, false, t) && m !in done && m != "" && !Has(before, m) && "" !in done
    requires next !in w && !Has(w, m)
    requires (mark == m && u == t) || (mark == "" && u == t.(mark := true))
    ensures MarkersOk(before, w[next := Window(mark, true)], done + {m}, false, u)
  {
    var v := w[next := Window(mark, true)];
    forall x | x in done && Has(w, x)
      ensures Has(v, x)
    {
      var id: Id :| At(w, id, x);
      assert At(v, id, x);
    }
    assert mark == m ==> At(v, next, m);
    assert forall id: Id, x | At(v, id, x) && (x != mark || id != next) :: At(w, id, x);
    assert AtMostOne(v, m);
  }

  // ---- The pass ----

  /** The ids with this marker, in any order, and the others. */
  method TakeIds(cur: map<Id, string>, marker: string) returns (ids: seq<Id>, rest: map<Id, string>)
    ensures forall id :: id in ids <==> id in cur && cur[id] == marker
    ensures forall i, j | 0 <= i < j < |ids| :: ids[i] != ids[j]
    ensures forall id :: id in rest <==> id in cur && cur[id] != marker
    ensures forall id | id in rest :: rest[id] == cur[id]
  {
    ids, rest := [], cur;
    var todo := cur.Keys;
    while todo != {}
      invariant todo <= cur.Keys
      invariant forall id :: id in ids <==> id in cur && id !in todo && cur[id] == marker
      invariant forall i, j | 0 <= i < j < |ids| :: ids[i] != ids[j]
      invariant forall id :: id in rest <==> id in cur && (id in todo || cur[id] != marker)
      invariant forall id | id in rest :: rest[id] == cur[id]
    {
      var id :| id in todo;
      todo := todo - {id};
      if cur[id] == marker {
        ids := ids + [id];
        rest := rest - {id};
      }
    }
  }

  method KillAll(mgr: Tmux, gone: set<Id>)
    requires mgr.Valid()
    modifies mgr`windows, mgr`trouble
    ensures mgr.Valid() && mgr.trouble == old(mgr.trouble).(kill := mgr.trouble.kill)
    ensures old(mgr.trouble).kill ==> mgr.trouble.kill
    ensures Killed(old(mgr.windows), mgr.windows, gone, !mgr.trouble.kill)
  {
    var todo := gone;
    while todo != {}
      invariant todo <= gone
      invariant mgr.Valid() && mgr.trouble == old(mgr.trouble).(kill := mgr.trouble.kill)
      invariant old(mgr.trouble).kill ==> mgr.trouble.kill
      invariant Killed(old(mgr.windows), mgr.windows, gone - todo, !mgr.trouble.kill)
    {
      var id :| id in todo;
      mgr.KillWindowID(id);
      todo := todo - {id};
    }
    assert gone - todo == gone;
  }

  /** Everything a pass may have done to the windows. `first` is the first id it could use. */
  ghost predicate Reconciled(unix: bool, before: Windows, after: Windows, desired: set<string>, capped: bool,
                             first: Id, t: Trouble)
  {
    && (forall id | id in before && IsUsers(unix, before[id]) :: id in after)
    && (forall id | id in before && id in after :: after[id] == before[id])
    && (forall id | id in after && id !in before ::
          && !capped && first <= id < first + |desired| && after[id].arrow
          && if after[id].marker == "" then unix && t.mark && Missing(before, desired)
             else after[id].marker in desired && !Has(before, after[id].marker))
    && MarkersOk(before, after, desired, capped, t)
    && (!t.kill ==> forall id | id in after && after[id].marker != "" :: after[id].marker in desired)
    && (!t.kill && !t.legacyList ==> forall id | id in after :: !IsLegacy(unix, after[id]))
  }

  /** After the last marker: windows with other markers go, then legacy ones. */
  lemma Finish(unix: bool, before: Windows, w: Windows, v: Windows, z: Windows, desired: set<string>, capped: bool,
               first: Id, next: Id, t: Trouble, u: Trouble, undesired: set<Id>, legacy: set<Id>)
    requires WindowsOk(before, w, desired, capped, first, t.mark) && MarkersOk(before, w, desired, capped, t)
    requires "" !in desired
    requires (t.kill ==> u.kill) && u == t.(kill := u.kill, legacyList := u.legacyList)
    requires first <= next <= first + |desired|
    requires (forall id | id in before :: id < first) && (forall id | id in w :: id < next)
    requires !unix ==> !t.mark && legacy == {}
    requires forall id :: id in undesired <==> id in before && before[id].marker != "" && before[id].marker !in desired
    requires Killed(w, v, undesired, !u.kill)
    requires Killed(v, z, legacy, !u.kill)
    requires forall id | id in legacy :: id in v && IsLegacy(unix, v[id])
    requires !u.legacyList ==> forall id | id in v && IsLegacy(unix, v[id]) :: id in legacy
    ensures Reconciled(unix, before, z, desired, capped, first, u)
  {
    assert MarkersOk(before, z, desired, capped, u) by {
      MarkersOutlive(before, w, z, desired, capped, t, u);
    }
    hide MarkersOk;
  }

  lemma MarkersOutlive(before: Windows, w: Windows, z: Windows, desired: set<string>, capped: bool,
                       t: Trouble, u: Trouble)
    requires MarkersOk(before, w, desired, capped, t)
    requires (t.kill ==> u.kill) && u == t.(kill := u.kill, legacyList := u.legacyList)
    requires forall id | id in z :: id in w && z[id] == w[id]
    requires forall id | id in w && w[id].marker in desired :: id in z
    ensures MarkersOk(before, z, desired, capped, u)
  {
    assert forall id: Id, x | At(z, id, x) :: At(w, id, x);
    forall x | x in desired && Has(w, x)
      ensures Has(z, x)
    {
      var id: Id :| At(w, id, x);
      assert At(z, id, x);
    }
  }

  /** The listed windows whose markers have not been dealt with. */
  ghost predicate Remaining(cur: map<Id, string>, before: Windows, done: set<string>) {
    && (forall id :: id in cur <==> id in before && before[id].marker != "" && before[id].marker !in done)
    && (forall id | id in cur :: cur[id] == before[id].marker)
  }

  /** One turn of the loop over the desired markers. */
  method ReconcileMarker(mgr: Tmux, marker: string, noCreate: bool, cur: map<Id, string>,
                         ghost before: Windows, ghost first: Id, ghost done: set<string>)
    returns (rest: map<Id, string>)
    requires mgr.Valid() && first <= mgr.next && marker != "" && marker !in done && "" !in done
    requires (forall id | id in before :: id < first) && Remaining(cur, before, done)
    requires Progress(before, mgr.windows, done, noCreate, first, mgr.trouble)
    modifies mgr
    ensures mgr.Valid() && old(mgr.next) <= mgr.next <= old(mgr.next) + 1
    ensures Progress(before, mgr.windows, done + {marker}, noCreate, first, mgr.trouble)
    ensures Remaining(rest, before, done + {marker})
  {
    hide Progress, Killed;
    ghost var w, t, next := mgr.windows, mgr.trouble, mgr.next;
    var ids: seq<Id>;
    ids, rest := TakeIds(cur, marker);
    assert forall id :: id in ids <==> At(before, id, marker);
    if |ids| == 0 {
      NotListed(before, marker, ids);
      if noCreate {
        ProgressSkip(before, w, done, noCreate, first, t, t, marker);
        return;
      }
      var created := mgr.NewMarkedWindow(marker);
      if created {
        ProgressCreate(before, w, done, first, next, t, mgr.trouble, marker, mgr.windows[next].marker);
      } else {
        ProgressSkip(before, w, done, noCreate, first, t, mgr.trouble, marker);
      }
    } else {
      var extras := set id | id in ids[1..];
      assert extras == (set id | id in ids) - {ids[0]};
      KillAll(mgr, extras);
      ProgressKeep(before, w, mgr.windows, done, noCreate, first, t, mgr.trouble, marker, (set id | id in ids), ids[0]);
    }
  }

  /** The end of a pass: windows left in `cur` go, and so do legacy ones. */
  method Sweep(mgr: Tmux, cur: map<Id, string>, ghost before: Windows, ghost desired: set<string>,
               ghost capped: bool, ghost first: Id)
    requires mgr.Valid() && first <= mgr.next <= first + |desired| && "" !in desired
    requires (forall id | id in before :: id < first) && Remaining(cur, before, desired)
    requires Progress(before, mgr.windows, desired, capped, first, mgr.trouble)
    modifies mgr
    ensures mgr.Valid()
    ensures Reconciled(mgr.unix, before, mgr.windows, desired, capped, first, mgr.trouble)
  {
    hide Progress, Killed, MarkersOk, WindowsOk, Reconciled, IsLegacy;
    ghost var w, t := mgr.windows, mgr.trouble;
    KillAll(mgr, cur.Keys);
    ghost var v, u := mgr.windows, mgr.trouble;
    var found, legacy := mgr.LegacyAttachWindows();
    if found {
      KillAll(mgr, legacy);
    } else {
      legacy := {};
      KilledNone(v, !mgr.trouble.kill);
    }
    KilledLess(w, v, cur.Keys, !u.kill, !mgr.trouble.kill);
    ProgressParts(before, w, desired, capped, first, t);
    Finish(mgr.unix, before, w, v, mgr.windows, desired, capped, first, mgr.next, t, mgr.trouble, cur.Keys, legacy);
  }

  /** The part of a pass that touches windows. */
  method ReconcileWindows(mgr: Tmux, markers: set<string>, listed: map<Id, string>, noCreate: bool,
                          ghost before: Windows, ghost first: Id)
    requires mgr.Valid() && mgr.windows == before && mgr.next == first && listed == Marked(before) && "" !in markers
    modifies mgr
    ensures mgr.Valid() && Reconciled(mgr.unix, before, mgr.windows, markers, noCreate, first, mgr.trouble)
  {
    hide Progress, Reconciled, Remaining;
    ghost var done: set<string> := {};
    var rest, cur := markers, listed;
    ProgressStart(before, noCreate, first, mgr.trouble);
    RemainingStart(cur, before);
    while rest != {}
      invariant mgr.Valid() && first <= mgr.next <= first + |done|
      invariant rest <= markers && done == markers - rest
      invariant Progress(before, mgr.windows, done, noCreate, first, mgr.trouble)
      invariant Remaining(cur, before, done)
    {
      var marker :| marker in rest;
      assert marker !in done && |done + {marker}| == |done| + 1;
      cur := ReconcileMarker(mgr, marker, noCreate, cur, before, first, done);
      rest := rest - {marker};
      done := done + {marker};
    }
    assert done == markers;
    Sweep(mgr, cur, before, markers, noCreate, first);
  }

  method ReconcileRemote(mgr: Tmux, self: string, list: PCList) returns (ok: bool, ghost desired: set<string>)
    requires mgr.Valid()
    modifies mgr
    ensures mgr.Valid()
    ensures !ok ==> mgr.windows == old(mgr.windows)
    ensures ok ==> list.AllPCs?
    ensures ok ==> forall i | 0 <= i < |list.pcs| && Foreign(self, list.pcs[i]) :: list.pcs[i].sessions.Listed?
    ensures ok ==> forall m :: m in desired <==> Wanted(self, list.pcs, m)
    ensures ok ==> Reconciled(mgr.unix, old(mgr.windows), mgr.windows, desired,
      Capped(|desired|, |Marked(old(mgr.windows))|), old(mgr.next), mgr.trouble)
  {
    hide Wanted, Reconciled, Capped, Foreign;
    desired := {};
    ghost var before, first := mgr.windows, mgr.next;
    var listed, cur := mgr.MarkedWindows();
    if !listed {
      return false, {};
    }
    if list.NoPCs? {
      return false, {};
    }
    var known, wanted := Desired(self, list.pcs);
    if !known {
      return false, {};
    }
    desired := wanted.Keys;
    var noCreate := Capped(|wanted|, |cur|);
    ReconcileWindows(mgr, wanted.Keys, cur, noCreate, before, first);
    ok := true;
  }

  lemma RemainingStart(cur: map<Id, string>, before: Windows)
    requires cur == Marked(before)
    ensures Remaining(cur, before, {})
  {
  }

  lemma KilledNone(w: Windows, all: bool)
    ensures Killed(w, w, {}, all)
  {
  }

  lemma KilledLess(w: Windows, v: Windows, gone: set<Id>, all: bool, fewer: bool)
    requires Killed(w, v, gone, all) && (fewer ==> all)
    ensures Killed(w, v, gone, fewer)
  {
  }

  lemma ProgressParts(before: Windows, w: Windows, done: set<string>, capped: bool, first: Id, t: Trouble)
    requires Progress(before, w, done, capped, first, t)
    ensures WindowsOk(before, w, done, capped, first, t.mark) && MarkersOk(before, w, done, capped, t)
  {
  }

  lemma NotListed(before: Windows, marker: string, ids: seq<Id>)
    requires ids == [] && forall id :: id in ids <==> At(before, id, marker)
    ensures !Has(before, marker)
  {
  }
}
