/** The move picker of GetNextMove, independent of chess: the moves are tried one after
    another in a fixed order, the first mating move ends the search, and otherwise the
    picker keeps the best-scoring move, replacing it only by a strictly better one. */
module MovePicker {
  import opened ChessTypes

  /** What trying one move yields. */
  datatype Try = Illegal | Mating(m: Move) | Scored(m: Move)

  /** The picker's state: a mating move found, or the best move held so far (if any). */
  datatype Pick = Mated(m: Move) | Held(best: Option<Move>)

  /** The state after trying one more move. */
  function Tried(s: Pick, o: Try): Pick {
    if s.Mated? || o.Illegal? then s
    else if o.Mating? then Mated(o.m)
    else if s.best.None? || s.best.value.value < o.m.value then Held(Some(o.m))
    else s
  }

  /** The state after trying the first k moves, whose outcomes are os[..k]. */
  function PickBefore(os: seq<Try>, k: nat): Pick
    requires k <= |os|
  {
    if k == 0 then Held(None) else Tried(PickBefore(os, k - 1), os[k - 1])
  }

  /** The move returned once every move has been tried (or a mate found):
      the mating move, else the best held, else the stalemate sentinel. */
  function Chosen(p: Pick): Move {
    match p
    case Mated(m) => m
    case Held(None) => StalemateMove()
    case Held(Some(m)) => m
  }

  /** Move j is the first mating one. */
  predicate FirstMatingAt(os: seq<Try>, j: int) {
    0 <= j < |os| && os[j].Mating? && forall i :: 0 <= i < j ==> !os[i].Mating?
  }

  /** Among the first k moves, move j scores highest, and strictly higher than every
      scored move before it. */
  predicate BestAt(os: seq<Try>, k: int, j: int)
    requires k <= |os|
  {
    0 <= j < k && os[j].Scored? &&
    (forall i :: 0 <= i < k && os[i].Scored? ==> os[i].m.value <= os[j].m.value) &&
    (forall i :: 0 <= i < j && os[i].Scored? ==> os[i].m.value < os[j].m.value)
  }

  /** A mate is found exactly when some move so far was mating, and it is the first one. */
  lemma {:induction false} PickMatedSpec(os: seq<Try>, k: nat)
    requires k <= |os|
    ensures PickBefore(os, k).Mated? <==> exists j :: 0 <= j < k && os[j].Mating?
    ensures PickBefore(os, k).Mated? ==>
      exists j :: j < k && FirstMatingAt(os, j) && os[j].m == PickBefore(os, k).m
  {
    if k > 0 {
      PickMatedSpec(os, k - 1);
      var s := PickBefore(os, k - 1);
      if s.Mated? {
        var j :| j < k - 1 && FirstMatingAt(os, j) && os[j].m == s.m;
        assert j < k && FirstMatingAt(os, j);
      } else if os[k - 1].Mating? {
        assert FirstMatingAt(os, k - 1);
      }
    }
  }

  /** Nothing is held exactly when every move so far was illegal. */
  lemma {:induction false} PickNoneSpec(os: seq<Try>, k: nat)
    requires k <= |os|
    ensures PickBefore(os, k) == Held(None) <==> forall j :: 0 <= j < k ==> os[j].Illegal?
  {
    if k > 0 {
      PickNoneSpec(os, k - 1);
    }
  }

  /** Without a mate, what is held is the first of the best-scoring moves so far. */
  lemma {:induction false} PickBestSpec(os: seq<Try>, k: nat)
    requires k <= |os|
    ensures PickBefore(os, k).Held? && PickBefore(os, k).best.Some? ==>
      exists j :: BestAt(os, k, j) && os[j].m == PickBefore(os, k).best.value
  {
    if k > 0 {
      PickBestSpec(os, k - 1);
      PickNoneSpec(os, k - 1);
      var s := PickBefore(os, k - 1);
      var o := os[k - 1];
      if s.Mated? || o.Illegal? || o.Mating? {
        if s.Held? && s.best.Some? && !o.Mating? {
          var j :| BestAt(os, k - 1, j) && os[j].m == s.best.value;
          assert BestAt(os, k, j);
        }
      } else if s.best.None? || s.best.value.value < o.m.value {
        if s.best.Some? {
          var j :| BestAt(os, k - 1, j) && os[j].m == s.best.value;
        }
        assert BestAt(os, k, k - 1);
      } else {
        var j :| BestAt(os, k - 1, j) && os[j].m == s.best.value;
        assert BestAt(os, k, j);
      }
    }
  }

  /** Once a mate is found the state no longer changes. */
  lemma {:induction false} MatedStays(os: seq<Try>, k: nat, k': nat)
    requires k <= k' <= |os| && PickBefore(os, k).Mated?
    ensures PickBefore(os, k') == PickBefore(os, k)
    decreases k' - k
  {
    if k < k' {
      MatedStays(os, k + 1, k');
    }
  }

  /** A run of illegal moves leaves the state as it was. */
  lemma {:induction false} IllegalRun(os: seq<Try>, k: nat, n: nat)
    requires k + n <= |os| && forall j :: k <= j < k + n ==> os[j].Illegal?
    ensures PickBefore(os, k + n) == PickBefore(os, k)
  {
    if n > 0 {
      IllegalRun(os, k, n - 1);
    }
  }

  /** What the picker returns after all moves: the first mating move if any; else, if some
      move was scored, the first of the best-scoring; else the stalemate sentinel. */
  lemma ChosenSpec(os: seq<Try>)
    ensures (exists j :: 0 <= j < |os| && os[j].Mating?) ==>
      exists j :: FirstMatingAt(os, j) && Chosen(PickBefore(os, |os|)) == os[j].m
    ensures (forall j :: 0 <= j < |os| ==> !os[j].Mating?) && (exists j :: 0 <= j < |os| && os[j].Scored?) ==>
      exists j :: BestAt(os, |os|, j) && Chosen(PickBefore(os, |os|)) == os[j].m
    ensures (forall j :: 0 <= j < |os| ==> os[j].Illegal?) ==> Chosen(PickBefore(os, |os|)) == StalemateMove()
  {
    PickMatedSpec(os, |os|);
    PickNoneSpec(os, |os|);
    PickBestSpec(os, |os|);
  }
}
