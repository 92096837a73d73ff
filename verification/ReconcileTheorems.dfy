/** What passes of ReconcileRemote achieve together. */
module ReconcileTheorems {
  import opened Reconcile

  /** No tmux call has failed. */
  predicate Calm(t: Trouble) {
    !t.create && !t.mark && !t.kill && !t.legacyList
  }

  /** At most one window for each desired marker, and none for any other. */
  ghost predicate Tidy(desired: set<string>, w: Windows) {
    && (forall m | m in desired :: AtMostOne(w, m))
    && forall id | id in w && w[id].marker != "" :: w[id].marker in desired
  }

  /** Exactly one window for each desired marker, none for any other, and no leftovers. */
  ghost predicate Converged(unix: bool, desired: set<string>, w: Windows) {
    && Tidy(desired, w)
    && (forall m | m in desired :: Has(w, m))
    && forall id | id in w :: !IsLegacy(unix, w[id])
  }

  /** One pass that read its lists, from `before` to `after`. */
  ghost predicate Pass(unix: bool, desired: set<string>, before: Windows, after: Windows, first: Id, t: Trouble) {
    Reconciled(unix, before, after, desired, Capped(|desired|, |Marked(before)|), first, t)
  }

  // ---- Counting ----

  lemma {:induction false} OneEach(c: map<Id, string>, desired: set<string>)
    requires forall id | id in c :: c[id] in desired
    requires forall i, j | i in c && j in c && c[i] == c[j] :: i == j
    ensures |c| <= |desired|
    decreases |c|
  {
    if c != map[] {
      var id :| id in c;
      var rest := c - {id};
      assert c.Keys == rest.Keys + {id};
      assert |c.Keys| == |rest.Keys| + 1;
      OneEach(rest, desired - {c[id]});
    }
  }

  lemma MarkedAreFew(desired: set<string>, w: Windows)
    requires Tidy(desired, w)
    ensures |Marked(w)| <= |desired|
  {
    var c := Marked(w);
    forall i, j | i in c && j in c && c[i] == c[j]
      ensures i == j
    {
      assert At(w, i, c[i]) && At(w, j, c[i]);
    }
    OneEach(c, desired);
  }

  // ---- Convergence ----

  /** One pass without failures leaves at most one window per desired marker, none
      undesired, and converges unless the guard was hit. */
  lemma OnePass(unix: bool, desired: set<string>, w: Windows, v: Windows, first: Id, t: Trouble)
    requires Pass(unix, desired, w, v, first, t) && Calm(t)
    ensures Tidy(desired, v)
    ensures |Marked(w)| <= |desired| * 3 + 8 ==> Converged(unix, desired, v)
  {
    hide Marked;
  }

  /** Two passes without failures converge from any windows whatever. */
  lemma TwoPasses(unix: bool, desired: set<string>, w: Windows, v: Windows, u: Windows,
                  first: Id, second: Id, t: Trouble, s: Trouble)
    requires Pass(unix, desired, w, v, first, t) && Calm(t)
    requires Pass(unix, desired, v, u, second, s) && Calm(s)
    ensures Converged(unix, desired, u)
  {
    hide Pass, Converged, Tidy, Marked;
    OnePass(unix, desired, w, v, first, t);
    MarkedAreFew(desired, v);
    OnePass(unix, desired, v, u, second, s);
  }

  /** Once converged, a pass creates and kills nothing, whatever fails in it. */
  lemma ConvergedIsStable(unix: bool, desired: set<string>, w: Windows, v: Windows, first: Id, t: Trouble)
    requires Converged(unix, desired, w) && Pass(unix, desired, w, v, first, t)
    ensures v == w
  {
    hide Capped, Marked;
    forall id | id in w
      ensures id in v
    {
      var m := w[id].marker;
      if m != "" {
        var kept: Id :| At(v, kept, m);
        assert At(w, kept, m) && At(w, id, m);
      }
    }
    assert !Missing(w, desired);
  }

  // ---- Running away ----

  function Arrows(w: Windows): set<Id> {
    set id | id in w && w[id].arrow
  }

  /** On unix, even if marking new windows fails every time, a pass whose kills and lists
      succeed leaves no more remote windows than there are desired markers. */
  lemma PurgeBoundsArrows(desired: set<string>, w: Windows, v: Windows, first: Id, t: Trouble)
    requires Pass(true, desired, w, v, first, t) && !t.kill && !t.legacyList
    ensures |Arrows(v)| <= |desired|
  {
    hide Capped;
    assert Tidy(desired, v);
    MarkedAreFew(desired, v);
    assert Arrows(v) <= Marked(v).Keys;
    SubsetCount(Arrows(v), Marked(v).Keys);
  }

  lemma {:induction false} SubsetCount<T>(a: set<T>, b: set<T>)
    requires a <= b
    ensures |a| <= |b|
  {
    assert b == a + (b - a);
  }

  function Range(first: nat, n: nat): (r: set<nat>)
    ensures |r| == n && forall k :: k in r <==> first <= k < first + n
    decreases n
  {
    if n == 0 then {} else Range(first, n - 1) + {first + n - 1}
  }

  /** Whatever fails, a pass makes at most one window per desired marker, and none under the
      guard: so the number of marked windows stays within the guard and one more round. */
  lemma PassIsBounded(unix: bool, desired: set<string>, w: Windows, v: Windows, first: Id, t: Trouble)
    requires Pass(unix, desired, w, v, first, t)
    ensures |v.Keys - w.Keys| <= |desired|
    ensures |Marked(w)| > |desired| * 3 + 8 ==> v.Keys <= w.Keys
    ensures |Marked(v)| <= if |Marked(w)| > |desired| * 3 + 8 then |Marked(w)| else |desired| * 4 + 8
  {
    var added := v.Keys - w.Keys;
    var range := Range(first, |desired|);
    assert added <= range;
    SubsetCount(added, range);
    var prior, all := Marked(w).Keys, Marked(v).Keys;
    if Capped(|desired|, |Marked(w)|) {
      assert all <= prior;
      SubsetCount(all, prior);
    } else {
      assert all <= prior + range;
      SubsetCount(all, prior + range);
    }
  }

  datatype Round = Round(desired: set<string>, first: Id, t: Trouble)

  /** Rounds one after the other; a round that could not read its lists changes nothing. */
  ghost predicate Rounds(unix: bool, ws: seq<Windows>, rounds: seq<Round>) {
    && |ws| == |rounds| + 1
    && forall i | 0 <= i < |rounds| ::
      RoundOk(unix, ws[i], ws[i + 1], rounds[i])
  }

  ghost predicate RoundOk(unix: bool, w: Windows, v: Windows, r: Round) {
    v == w || Pass(unix, r.desired, w, v, r.first, r.t)
  }

  lemma RoundIsBounded(unix: bool, w: Windows, v: Windows, r: Round, most: nat)
    requires RoundOk(unix, w, v, r) && |r.desired| <= most
    ensures |Marked(v)| <= if |Marked(w)| > most * 4 + 8 then |Marked(w)| else most * 4 + 8
  {
    hide Pass, Marked;
    if v != w {
      PassIsBounded(unix, r.desired, w, v, r.first, r.t);
    }
  }

  /** Over any number of rounds, whatever fails and however the sessions change, the marked
      windows never outnumber both the start and the guard of the largest set of sessions. */
  lemma {:induction false} NeverRunsAway(unix: bool, ws: seq<Windows>, rounds: seq<Round>, most: nat, k: nat)
    requires Rounds(unix, ws, rounds) && k < |ws|
    requires forall i | 0 <= i < |rounds| :: |rounds[i].desired| <= most
    ensures |Marked(ws[k])| <= if |Marked(ws[0])| > most * 4 + 8 then |Marked(ws[0])| else most * 4 + 8
    decreases k
  {
    hide RoundOk, Marked;
    if k > 0 {
      NeverRunsAway(unix, ws, rounds, most, k - 1);
      RoundIsBounded(unix, ws[k - 1], ws[k], rounds[k - 1], most);
    }
  }
}
