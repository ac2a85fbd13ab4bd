/** Taking a spend back when a block is disconnected (src/main.cpp:1972-1999). */
module CoinsUndo {
  import opened Basics
  import opened Coins

  /** vout.resize(size), when that makes it longer. */
  function Resized(vout: seq<TxOut>, size: nat): (r: seq<TxOut>)
    ensures |r| == if |vout| < size then size else |vout|
  {
    if |vout| < size then vout + seq(size - |vout|, _ => NULL_OUT) else vout
  }

  datatype Restored = Restored(coins: Coins, clean: bool)

  /** src/main.cpp:1983-2000; the flag says that no inconsistency was found. The coinstake flag is
      cleared with everything else, but not set again. */
  function Restore(d: Coins, n: nat, undo: Undo): Restored {
    var c := if undo.height == 0 then d
             else EMPTY_COINS.(coinBase := undo.coinBase, height := undo.height, version := undo.version);
    Restored(c.(vout := Resized(c.vout, n + 1)[n := undo.out]),
             (undo.height != 0 <==> IsPruned(d)) && !IsAvailable(c, n))
  }

  // ---- What the restored coins are compared with ----

  /** The same outputs are available, with the same values and scripts. */
  ghost predicate SameOutputs(a: seq<TxOut>, b: seq<TxOut>) {
    forall m: nat :: (Unspent(a, m) <==> Unspent(b, m)) && (Unspent(a, m) ==> a[m] == b[m])
  }

  predicate SameMetadata(a: Coins, b: Coins) {
    a.coinBase == b.coinBase && a.coinStake == b.coinStake && a.height == b.height && a.version == b.version
  }

  /** Fully spent coins count as equal to absent ones, whatever else they hold (src/coins.h:139-150). */
  ghost predicate Same(a: Coins, b: Coins) {
    (IsPruned(a) && IsPruned(b)) || (SameMetadata(a, b) && SameOutputs(a.vout, b.vout))
  }

  predicate LastOne(c: Coins, n: nat) {
    forall m: nat :: m < |c.vout| && IsAvailable(c, m) ==> m == n
  }

  lemma SamePruned(a: seq<TxOut>, b: seq<TxOut>)
    requires SameOutputs(a, b)
    ensures (forall i :: 0 <= i < |a| ==> a[i].IsNull()) <==> (forall i :: 0 <= i < |b| ==> b[i].IsNull())
  {
    if i :| 0 <= i < |a| && !a[i].IsNull() {
      assert Unspent(a, i) && Unspent(b, i);
    }
    if i :| 0 <= i < |b| && !b[i].IsNull() {
      assert Unspent(b, i) && Unspent(a, i);
    }
  }

  lemma AfterSpend(c: Coins, n: nat)
    requires IsAvailable(c, n)
    ensures var r := Spend(c, n);
      && r.Spent? && (IsPruned(r.coins) <==> LastOne(c, n)) && SameMetadata(r.coins, c)
      && SameOutputs(r.coins.vout, c.vout[n := NULL_OUT])
      && r.undo == if LastOne(c, n) then Undo(c.vout[n], c.height, c.coinBase, c.coinStake, c.version)
                   else Undo(c.vout[n], 0, false, false, 0)
  {
    SpendProps(c, n);
    var r := Spend(c, n);
    if LastOne(c, n) {
      assert forall m: nat :: IsAvailable(c, m) ==> m == n;
    } else {
      var m: nat :| m < |c.vout| && IsAvailable(c, m) && m != n;
      assert IsAvailable(r.coins, m);
    }
  }

  /** Putting an output back into what is left after it was spent. */
  lemma OutputsBack(c: Coins, n: nat, d: seq<TxOut>)
    requires IsAvailable(c, n) && SameOutputs(d, c.vout[n := NULL_OUT])
    ensures SameOutputs(Resized(d, n + 1)[n := c.vout[n]], c.vout)
  {
    var v, w := Resized(d, n + 1)[n := c.vout[n]], c.vout[n := NULL_OUT];
    forall m: nat ensures (Unspent(v, m) <==> Unspent(c.vout, m)) && (Unspent(v, m) ==> v[m] == c.vout[m]) {
      if m != n {
        assert Unspent(w, m) <==> Unspent(c.vout, m);
        assert Unspent(v, m) <==> Unspent(d, m);
      }
    }
  }

  // ---- One output ----

  /** Equal but for a coinstake flag that may be missing in `a`. */
  ghost predicate Close(a: Coins, b: Coins) {
    || (IsPruned(a) && IsPruned(b))
    || (SameMetadata(a.(coinStake := b.coinStake), b) && (a.coinStake ==> b.coinStake) && SameOutputs(a.vout, b.vout))
  }

  /** Restoring a spent output onto what is left, or onto something close to it: what was the last
      output comes back without the coinstake flag, and not cleanly at height 0. */
  lemma RestoreClose(c: Coins, n: nat, d: Coins)
    requires IsAvailable(c, n) && Close(d, Spend(c, n).coins)
    ensures var t := Restore(d, n, Spend(c, n).undo);
      && (t.clean <==> !LastOne(c, n) || c.height != 0)
      && (t.clean ==> Close(t.coins, c))
      && (t.clean ==> t.coins.coinStake == if LastOne(c, n) then false else d.coinStake)
  {
    AfterSpend(c, n);
    var left := Spend(c, n).coins;
    if IsPruned(left) {
      PrunedIsNothing(c, n, left);
      LeftPruned(c, n, d, left);
    } else {
      SamePruned(d.vout, left.vout);
      SameTrans(d.vout, left.vout, c.vout[n := NULL_OUT]);
      NotThere(c, n, d.vout);
      OutputsBack(c, n, d.vout);
    }
  }

  lemma SameTrans(a: seq<TxOut>, b: seq<TxOut>, c: seq<TxOut>)
    requires SameOutputs(a, b) && SameOutputs(b, c)
    ensures SameOutputs(a, c)
  {
  }

  lemma NotThere(c: Coins, n: nat, d: seq<TxOut>)
    requires IsAvailable(c, n) && SameOutputs(d, c.vout[n := NULL_OUT])
    ensures !Unspent(d, n)
  {
    assert !Unspent(c.vout[n := NULL_OUT], n);
  }

  lemma PrunedIsNothing(c: Coins, n: nat, left: Coins)
    requires IsAvailable(c, n) && IsPruned(left) && SameOutputs(left.vout, c.vout[n := NULL_OUT])
    ensures SameOutputs([], c.vout[n := NULL_OUT])
  {
    var w := c.vout[n := NULL_OUT];
    forall m: nat ensures !Unspent(w, m) {
      assert !Unspent(left.vout, m);
    }
  }

  lemma LeftPruned(c: Coins, n: nat, d: Coins, left: Coins)
    requires IsAvailable(c, n) && IsPruned(left) && Close(d, left) && SameOutputs([], c.vout[n := NULL_OUT])
    ensures IsPruned(d)
    ensures SameOutputs(Resized([], n + 1)[n := c.vout[n]], c.vout)
  {
    OutputsBack(c, n, []);
    if !IsPruned(d) {
      SamePruned(d.vout, left.vout);
    }
  }

  /** Spending an output and undoing it, with the coins possibly dropped from the view in between
      when nothing was left: everything comes back, without an inconsistency being reported, if
      and only if the output was not the last one, or the height is not 0 and there was no
      coinstake flag. */
  lemma SpendUndone(c: Coins, n: nat, d: Coins)
    requires IsAvailable(c, n) && Same(d, Spend(c, n).coins)
    ensures var t := Restore(d, n, Spend(c, n).undo);
      t.clean && Same(t.coins, c) <==> !LastOne(c, n) || (c.height != 0 && !c.coinStake)
  {
    AfterSpend(c, n);
    RestoreClose(c, n, d);
    assert !IsPruned(c);
  }

  /** The only output of a coinstake at height 100: undone, it is no coinstake any more. */
  lemma CoinstakeIsLost()
    ensures var c := Coins(false, true, [TxOut(5, [])], 100, 1);
      var t := Restore(EMPTY_COINS, 0, Spend(c, 0).undo);
      Spend(c, 0).Spent? && t.clean && t.coins == c.(coinStake := false)
  {
    var c := Coins(false, true, [TxOut(5, [])], 100, 1);
    assert c.vout[0 := NULL_OUT] == [NULL_OUT];
    assert [NULL_OUT][..0] == [];
  }

  // ---- All inputs of a transaction ----

  type Txid = nat
  type View = map<Txid, Coins>

  function At(v: View, t: Txid): Coins {
    if t in v then v[t] else EMPTY_COINS
  }

  datatype Spends = Failed | Done(view: View, undos: seq<Undo>)

  /** The spends of UpdateCoins (src/main.cpp:1800-1809). */
  function SpendAll(v: View, ins: seq<Outpoint>): (r: Spends)
    ensures r.Done? ==> |r.undos| == |ins|
  {
    if ins == [] then Done(v, [])
    else
      match Spend(At(v, ins[0].txid), ins[0].n)
      case NotSpent => Failed
      case Spent(c, undo) =>
        match SpendAll(v[ins[0].txid := c], ins[1..])
        case Failed => Failed
        case Done(w, undos) => Done(w, [undo] + undos)
  }

  datatype Undone = Undone(view: View, clean: bool)

  /** The last input is restored first (src/main.cpp:1979-2001). */
  function RestoreAll(v: View, ins: seq<Outpoint>, undos: seq<Undo>): Undone
    requires |ins| == |undos|
  {
    if ins == [] then Undone(v, true)
    else
      var r := RestoreAll(v, ins[1..], undos[1..]);
      var t := Restore(At(r.view, ins[0].txid), ins[0].n, undos[0]);
      Undone(r.view[ins[0].txid := t.coins], r.clean && t.clean)
  }

  lemma SpendNext(v: View, ins: seq<Outpoint>, undos: seq<Undo>, j: nat)
    requires j < |ins| && SpendAll(v, ins[j..]).Done?
    ensures var r := Spend(At(v, ins[j].txid), ins[j].n);
      && r.Spent? && SpendAll(v[ins[j].txid := r.coins], ins[j + 1..]).Done?
      && var rest := SpendAll(v[ins[j].txid := r.coins], ins[j + 1..]);
         && SpendAll(v, ins[j..]).view == rest.view
         && undos + SpendAll(v, ins[j..]).undos == (undos + [r.undo]) + rest.undos
  {
    assert ins[j..][0] == ins[j] && ins[j..][1..] == ins[j + 1..];
  }

  /** The loop of UpdateCoins; its assert holds when every input is available in turn. */
  method SpendInputs(v: View, ins: seq<Outpoint>) returns (w: View, undos: seq<Undo>)
    requires SpendAll(v, ins).Done?
    ensures SpendAll(v, ins) == Done(w, undos)
  {
    w, undos := v, [];
    var j := 0;
    while j < |ins|
      invariant 0 <= j <= |ins| && SpendAll(w, ins[j..]).Done?
      invariant SpendAll(v, ins).view == SpendAll(w, ins[j..]).view
      invariant SpendAll(v, ins).undos == undos + SpendAll(w, ins[j..]).undos
    {
      SpendNext(w, ins, undos, j);
      var r := Spend(At(w, ins[j].txid), ins[j].n);
      assert r.Spent?;
      w, undos := w[ins[j].txid := r.coins], undos + [r.undo];
      j := j + 1;
    }
  }

  /** The loop of DisconnectBlock over the inputs. */
  method RestoreInputs(v: View, ins: seq<Outpoint>, undos: seq<Undo>) returns (w: View, clean: bool)
    requires |ins| == |undos|
    ensures RestoreAll(v, ins, undos) == Undone(w, clean)
  {
    w, clean := v, true;
    var j := |ins|;
    while j > 0
      invariant 0 <= j <= |ins| && RestoreAll(v, ins[j..], undos[j..]) == Undone(w, clean)
    {
      j := j - 1;
      assert ins[j..][1..] == ins[j + 1..] && undos[j..][1..] == undos[j + 1..];
      var t := Restore(At(w, ins[j].txid), ins[j].n, undos[j]);
      w, clean := w[ins[j].txid := t.coins], clean && t.clean;
    }
    assert ins[0..] == ins && undos[0..] == undos;
  }

  predicate Listed(ins: seq<Outpoint>, t: Txid, m: nat) {
    Outpoint(t, m) in ins
  }

  /** The transaction has outputs left, and all of them are spent by `ins`. */
  ghost predicate Emptied(v: View, ins: seq<Outpoint>, t: Txid) {
    !IsPruned(At(v, t)) && forall m: nat :: IsAvailable(At(v, t), m) ==> Listed(ins, t, m)
  }

  /** The transactions that lose all their outputs have a height. */
  ghost predicate HeightsKnown(v: View, ins: seq<Outpoint>) {
    forall t :: Emptied(v, ins, t) ==> At(v, t).height != 0
  }

  ghost predicate NoCoinstakes(v: View, ins: seq<Outpoint>) {
    forall t :: Emptied(v, ins, t) ==> !At(v, t).coinStake
  }

  lemma ListedNext(ins: seq<Outpoint>, t: Txid, m: nat)
    requires ins != []
    ensures Listed(ins, t, m) <==> ins[0] == Outpoint(t, m) || Listed(ins[1..], t, m)
  {
    if Listed(ins, t, m) {
      var k :| 0 <= k < |ins| && ins[k] == Outpoint(t, m);
      assert k > 0 ==> ins[k] == ins[1..][k - 1];
    }
  }

  lemma EmptiedElsewhere(v: View, ins: seq<Outpoint>, c: Coins, t: Txid)
    requires ins != [] && t != ins[0].txid
    ensures Emptied(v[ins[0].txid := c], ins[1..], t) <==> Emptied(v, ins, t)
  {
    forall m: nat ensures Listed(ins, t, m) <==> Listed(ins[1..], t, m) {
      ListedNext(ins, t, m);
    }
  }

  /** The transaction spent from: emptied at once, or later if the rest of the inputs do it. */
  lemma EmptiedHere(v: View, ins: seq<Outpoint>)
    requires ins != [] && IsAvailable(At(v, ins[0].txid), ins[0].n)
    ensures var t := ins[0].txid; var c := At(v, t); var n := ins[0].n;
      var later := Emptied(v[t := Spend(c, n).coins], ins[1..], t);
      if LastOne(c, n) then Emptied(v, ins, t) && !later else (later <==> Emptied(v, ins, t))
  {
    var t, n := ins[0].txid, ins[0].n;
    var c := At(v, t);
    AfterSpend(c, n);
    var left := Spend(c, n).coins;
    assert forall m: nat :: IsAvailable(left, m) <==> m != n && IsAvailable(c, m) by { SpendProps(c, n); }
    forall m: nat ensures Listed(ins, t, m) <==> m == n || Listed(ins[1..], t, m) {
      ListedNext(ins, t, m);
    }
  }

  /** What restoring gives for one transaction: everything, but no coinstake flag where all
      outputs had been spent. */
  ghost predicate Back(v: View, ins: seq<Outpoint>, w: View, t: Txid) {
    && Close(At(w, t), At(v, t))
    && (!IsPruned(At(v, t)) ==> (At(w, t).coinStake <==> At(v, t).coinStake && !Emptied(v, ins, t)))
  }

  ghost predicate AllBack(v: View, ins: seq<Outpoint>, w: View) {
    forall t :: Back(v, ins, w, t)
  }

  /** Two views that show the same coins. */
  ghost predicate Alike(w: View, v: View) {
    forall t :: Same(At(w, t), At(v, t))
  }

  lemma FirstBack(v: View, ins: seq<Outpoint>, w: View)
    requires ins != [] && IsAvailable(At(v, ins[0].txid), ins[0].n)
    requires var t := ins[0].txid; Back(v[t := Spend(At(v, t), ins[0].n).coins], ins[1..], w, t)
    ensures var t := ins[0].txid; var c := At(v, t); var r := Restore(At(w, t), ins[0].n, Spend(c, ins[0].n).undo);
      && (r.clean <==> !LastOne(c, ins[0].n) || c.height != 0)
      && (r.clean ==> Back(v, ins, w[t := r.coins], t))
  {
    var t, n := ins[0].txid, ins[0].n;
    var c := At(v, t);
    EmptiedHere(v, ins);
    AfterSpend(c, n);
    RestoreClose(c, n, At(w, t));
  }

  lemma HeightsNext(v: View, ins: seq<Outpoint>)
    requires ins != [] && IsAvailable(At(v, ins[0].txid), ins[0].n)
    ensures var t := ins[0].txid; var c := At(v, t); var left := Spend(c, ins[0].n).coins;
      HeightsKnown(v, ins) <==> HeightsKnown(v[t := left], ins[1..]) && (LastOne(c, ins[0].n) ==> c.height != 0)
  {
    var t := ins[0].txid;
    var v1 := v[t := Spend(At(v, t), ins[0].n).coins];
    AfterSpend(At(v, t), ins[0].n);
    EmptiedHere(v, ins);
    forall u | u != t ensures Emptied(v1, ins[1..], u) <==> Emptied(v, ins, u) {
      EmptiedElsewhere(v, ins, v1[t], u);
    }
    assert At(v1, t).height == At(v, t).height;
    if HeightsKnown(v, ins) {
      forall u | Emptied(v1, ins[1..], u) ensures At(v1, u).height != 0 {
        assert Emptied(v, ins, u);
      }
    }
    if HeightsKnown(v1, ins[1..]) && (LastOne(At(v, t), ins[0].n) ==> At(v, t).height != 0) {
      forall u | Emptied(v, ins, u) ensures At(v, u).height != 0 {
        assert u != t ==> Emptied(v1, ins[1..], u);
      }
    }
  }

  lemma RestBack(v: View, ins: seq<Outpoint>, c: Coins, w: View, d: Coins, t: Txid)
    requires ins != [] && t != ins[0].txid && Back(v[ins[0].txid := c], ins[1..], w, t)
    ensures Back(v, ins, w[ins[0].txid := d], t)
  {
    EmptiedElsewhere(v, ins, c, t);
  }

  lemma NothingSpent(v: View, w: View)
    requires Alike(w, v)
    ensures AllBack(v, [], w) && HeightsKnown(v, [])
  {
    forall t ensures Back(v, [], w, t) && !Emptied(v, [], t) {
      NeverEmptied(v, t);
      assert Same(At(w, t), At(v, t));
      SamePrunedCoins(At(w, t), At(v, t));
    }
  }

  lemma SamePrunedCoins(a: Coins, b: Coins)
    requires Same(a, b)
    ensures IsPruned(a) <==> IsPruned(b)
  {
    if SameOutputs(a.vout, b.vout) {
      SamePruned(a.vout, b.vout);
    }
  }

  lemma NeverEmptied(v: View, t: Txid)
    ensures !Emptied(v, [], t)
  {
    if !IsPruned(At(v, t)) {
      var m :| 0 <= m < |At(v, t).vout| && !At(v, t).vout[m].IsNull();
      assert IsAvailable(At(v, t), m) && !Listed([], t, m);
    }
  }

  lemma {:induction false} RestoresAll(v: View, ins: seq<Outpoint>, w: View)
    requires SpendAll(v, ins).Done? && Alike(w, SpendAll(v, ins).view)
    ensures var r := RestoreAll(w, ins, SpendAll(v, ins).undos);
      (r.clean <==> HeightsKnown(v, ins)) && (r.clean ==> AllBack(v, ins, r.view))
  {
    if ins == [] {
      NothingSpent(v, w);
    } else {
      var t, n := ins[0].txid, ins[0].n;
      var c := At(v, t);
      SpendProps(c, n);
      var left := Spend(c, n).coins;
      var sp := SpendAll(v[t := left], ins[1..]);
      RestoresAll(v[t := left], ins[1..], w);
      HeightsNext(v, ins);
      assert SpendAll(v, ins).undos[1..] == sp.undos;
      RestoresFirst(v, ins, RestoreAll(w, ins[1..], sp.undos));
    }
  }

  lemma RestoresFirst(v: View, ins: seq<Outpoint>, r: Undone)
    requires ins != [] && IsAvailable(At(v, ins[0].txid), ins[0].n)
    requires r.clean ==> AllBack(v[ins[0].txid := Spend(At(v, ins[0].txid), ins[0].n).coins], ins[1..], r.view)
    ensures var t := ins[0].txid; var c := At(v, t);
      var q := Restore(At(r.view, t), ins[0].n, Spend(c, ins[0].n).undo);
      && (r.clean ==> (q.clean <==> !LastOne(c, ins[0].n) || c.height != 0))
      && (r.clean && q.clean ==> AllBack(v, ins, r.view[t := q.coins]))
  {
    if r.clean {
      var t := ins[0].txid;
      var left := Spend(At(v, t), ins[0].n).coins;
      assert Back(v[t := left], ins[1..], r.view, t);
      FirstBack(v, ins, r.view);
      var q := Restore(At(r.view, t), ins[0].n, Spend(At(v, t), ins[0].n).undo);
      var w := r.view[t := q.coins];
      forall u | u != t ensures Back(v, ins, w, u) {
        assert Back(v[t := left], ins[1..], r.view, u);
        RestBack(v, ins, left, r.view, q.coins, u);
      }
    }
  }

  /** Disconnecting what was connected: after the inputs of a transaction are spent, undoing the
      spends in reverse order, from any view that shows the same coins, reports no inconsistency
      and shows the coins from before if and only if every transaction that lost all its outputs
      has a height other than 0 and no coinstake flag. */
  lemma DisconnectUndoesConnect(v: View, ins: seq<Outpoint>, w: View)
    requires SpendAll(v, ins).Done? && Alike(w, SpendAll(v, ins).view)
    ensures var r := RestoreAll(w, ins, SpendAll(v, ins).undos);
      r.clean && Alike(r.view, v) <==> HeightsKnown(v, ins) && NoCoinstakes(v, ins)
  {
    RestoresAll(v, ins, w);
    var r := RestoreAll(w, ins, SpendAll(v, ins).undos);
    if r.clean {
      if NoCoinstakes(v, ins) {
        forall t ensures Same(At(r.view, t), At(v, t)) {
          assert Back(v, ins, r.view, t);
        }
      } else {
        var t :| Emptied(v, ins, t) && At(v, t).coinStake;
        assert Back(v, ins, r.view, t);
        assert !Same(At(r.view, t), At(v, t));
      }
    }
  }
}
