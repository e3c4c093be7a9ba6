/** Runs of the queries: what the maps hold in the end, and which ends can be reached. */
module ScheduleRuns {
  import opened Scheduler

  // ---------------------------------------------------------------- who gets noted

  lemma {:induction false} NoteAllIs(m: map<string, string>, platforms: seq<string>, k: nat, b: string, p: string)
    requires k <= |platforms|
    ensures p in NoteAll(m, platforms, k, b) <==> p in m || p in platforms[..k]
    ensures p in m ==> NoteAll(m, platforms, k, b)[p] == m[p]
    ensures p !in m && p in platforms[..k] ==> NoteAll(m, platforms, k, b)[p] == b
  {
    if k > 0 {
      NoteAllIs(m, platforms, k - 1, b, p);
      assert platforms[..k] == platforms[..k - 1] + [platforms[k - 1]];
    }
  }

  /** Builder number k of the order is the first one that offers the platform. */
  ghost predicate FirstToOffer(ans: Answers, cls: Class, order: seq<string>, p: string, k: nat) {
    && k < |order| && p in Offered(ans, cls, order[k])
    && forall j :: 0 <= j < k ==> p !in Offered(ans, cls, order[j])
  }

  /** What the last builder of the order adds. */
  lemma LastNotes(ans: Answers, cls: Class, order: seq<string>, p: string)
    requires order != []
    ensures var b, before := order[|order| - 1], Fold(ans, cls, order[..|order| - 1]);
            && (p in Fold(ans, cls, order) <==> p in before || p in Offered(ans, cls, b))
            && (p in before ==> Fold(ans, cls, order)[p] == before[p])
            && (p !in before && p in Offered(ans, cls, b) ==> Fold(ans, cls, order)[p] == b)
  {
    var b, before := order[|order| - 1], Fold(ans, cls, order[..|order| - 1]);
    var offered := Offered(ans, cls, b);
    FoldStep(ans, cls, order);
    NoteAllIs(before, offered, |offered|, b, p);
    assert offered[..|offered|] == offered;
    hide Fold, NoteAll;
  }

  lemma {:induction false} FoldNotesOffered(ans: Answers, cls: Class, order: seq<string>, p: string)
    ensures p in Fold(ans, cls, order) <==> exists k :: 0 <= k < |order| && p in Offered(ans, cls, order[k])
  {
    if order != [] {
      var n := |order| - 1;
      var before := order[..n];
      FoldNotesOffered(ans, cls, before, p);
      LastNotes(ans, cls, order, p);
      hide Offered, Fold;
      assert p in Offered(ans, cls, order[n]) ==> exists k :: 0 <= k < |order| && p in Offered(ans, cls, order[k]);
      if k :| 0 <= k < n && p in Offered(ans, cls, before[k]) {
        assert order[k] == before[k];
      }
      if k :| 0 <= k < n && p in Offered(ans, cls, order[k]) {
        assert order[k] == before[k];
      }
    }
  }

  lemma {:induction false} FoldNotesThis(ans: Answers, cls: Class, order: seq<string>, p: string, k: nat)
    requires FirstToOffer(ans, cls, order, p, k)
    ensures p in Fold(ans, cls, order) && Fold(ans, cls, order)[p] == order[k]
  {
    var n := |order| - 1;
    var before := order[..n];
    LastNotes(ans, cls, order, p);
    hide Offered, Fold;
    if k < n {
      FoldNotesThis(ans, cls, before, p, k);
    } else {
      FoldNotesOffered(ans, cls, before, p);
    }
  }

  /** The sequential account notes, for every platform that is offered, the first builder that offers it. */
  lemma FoldNotesFirst(ans: Answers, cls: Class, order: seq<string>, p: string)
    ensures p in Fold(ans, cls, order) <==> exists k :: 0 <= k < |order| && p in Offered(ans, cls, order[k])
    ensures forall k: nat :: FirstToOffer(ans, cls, order, p, k) ==>
              p in Fold(ans, cls, order) && Fold(ans, cls, order)[p] == order[k]
  {
    FoldNotesOffered(ans, cls, order, p);
    hide Fold, Offered;
    forall k: nat | FirstToOffer(ans, cls, order, p, k)
      ensures p in Fold(ans, cls, order) && Fold(ans, cls, order)[p] == order[k]
    {
      FoldNotesThis(ans, cls, order, p, k);
    }
  }

  lemma {:induction false} SomeoneFirst(ans: Answers, cls: Class, order: seq<string>, p: string, n: nat)
    returns (k: nat)
    requires n < |order| && p in Offered(ans, cls, order[n])
    ensures FirstToOffer(ans, cls, order, p, k)
  {
    if j :| 0 <= j < n && p in Offered(ans, cls, order[j]) {
      k := SomeoneFirst(ans, cls, order, p, j);
    } else {
      k := n;
    }
  }

  /** In every reachable state in which no one holds the mutex, the maps are those of the sequential account. */
  lemma InterleavingsRefineFold(ans: Answers, run: seq<State>, i: nat)
    requires Run(ans, run) && i < |run| && run[i].holder.None?
    ensures run[i].native == Fold(ans, Native, run[i].order)
    ensures run[i].emulated == Fold(ans, Emulated, run[i].order)
  {
    hide Fold, OrderInv;
    RunKeepsInv(ans, run, i);
  }

  /** An entry that has been noted never changes. */
  lemma StepKeepsEntries(ans: Answers, s: State, t: State, p: string)
    requires Step(ans, s, t)
    ensures p in s.native ==> p in t.native && t.native[p] == s.native[p]
    ensures p in s.emulated ==> p in t.emulated && t.emulated[p] == s.emulated[p]
  {
  }

  lemma {:induction false} RunKeepsEntries(ans: Answers, run: seq<State>, i: nat, j: nat, p: string)
    requires Run(ans, run) && i <= j < |run|
    ensures p in run[i].native ==> p in run[j].native && run[j].native[p] == run[i].native[p]
    ensures p in run[i].emulated ==> p in run[j].emulated && run[j].emulated[p] == run[i].emulated[p]
  {
    hide Step;
    if i < j {
      RunKeepsEntries(ans, run, i, j - 1, p);
      assert Step(ans, run[j - 1], run[j - 1 + 1]);
      StepKeepsEntries(ans, run[j - 1], run[j], p);
    }
  }

  /** At the barrier no one holds the mutex, and everyone who had an answer has noted it. */
  lemma AtTheBarrier(ans: Answers, run: seq<State>)
    requires Run(ans, run) && AllFinished(run[|run| - 1])
    ensures var s := run[|run| - 1];
            && s.holder.None? && s.pc.Keys == ans.Keys
            && (forall b :: b in s.order <==> b in ans && ans[b].Some?)
            && (forall b :: b in ans ==> (s.pc[b].QueryFailed? <==> ans[b].None?))
  {
    hide MapsInv;
    RunKeepsInv(ans, run, |run| - 1);
    var s := run[|run| - 1];
    assert s.holder.Some? ==> InMutex(s.pc[s.holder.value]);
  }

  /**
   What the maps hold at the barrier: exactly the platforms that some builder offers, each with the builder that,
   among those offering it, got the mutex first.
   */
  lemma NotedAtTheBarrier(ans: Answers, run: seq<State>, cls: Class, p: string)
    requires Run(ans, run) && AllFinished(run[|run| - 1])
    ensures var s := run[|run| - 1];
            var m := if cls.Native? then s.native else s.emulated;
            && (p in m <==> exists b :: b in ans && p in Offered(ans, cls, b))
            && (forall k: nat :: FirstToOffer(ans, cls, s.order, p, k) ==> p in m && m[p] == s.order[k])
            && (p in m ==> m[p] in ans && p in Offered(ans, cls, m[p]))
  {
    var s := run[|run| - 1];
    var m := if cls.Native? then s.native else s.emulated;
    AtTheBarrier(ans, run);
    InterleavingsRefineFold(ans, run, |run| - 1);
    FoldNotesFirst(ans, cls, s.order, p);
    assert m == Fold(ans, cls, s.order);
    if p in m {
      var n :| 0 <= n < |s.order| && p in Offered(ans, cls, s.order[n]);
      var k := SomeoneFirst(ans, cls, s.order, p, n);
      assert m[p] == s.order[k];
      assert s.order[n] in s.order && s.order[k] in s.order;
    }
    if b :| b in ans && p in Offered(ans, cls, b) {
      assert b in s.order;
      var k :| 0 <= k < |s.order| && s.order[k] == b;
    }
  }
}
