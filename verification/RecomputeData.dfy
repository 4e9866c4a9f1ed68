/** What the rebuilds and recomputations of the queue read and write. */
module RecomputeData {
  import opened Options
  import opened RecomputeQueue
  import opened RecomputeRuns

  /** A rebuild that starts reads the sales of every SKU of the store the drain is at, for its days, and stamps them; it
      writes nothing yet. */
  lemma RebuildStarts(w: World)
    ensures var t := Step(w, StartRebuild);
      if w.q.live.Some? && CurrentWork(w.q).days != {}
      then
        var store, days := w.q.live.value.current, CurrentWork(w.q).days;
        && t == w.(flight := t.flight, built := t.built, clock := w.clock + 1)
        && t.flight.Some? && t.flight.value.Rebuilding? && t.flight.value.store == store && t.flight.value.days == days
        && (forall s :: s in t.flight.value.sales <==> s in w.db && s.store == store)
        && (forall s :: s in t.flight.value.sales ==> t.flight.value.sales[s] == w.db[s].sales)
        && (forall p: (int, int) :: p in t.built <==> p in w.built || (p.0 == store && p.1 in days))
        && (forall p: (int, int) :: p in t.built ==>
              t.built[p] == if p.0 == store && p.1 in days then w.clock else w.built[p])
      else t == w
  {
    if AwaitsRebuild(w.q) { StampedIs(w.built, w.q.live.value.current, CurrentWork(w.q).days, w.clock); }
    hide Stamped, CurrentWork;
  }

  lemma StampedIs(built: map<(int, int), nat>, store: int, days: set<int>, at: nat)
    ensures var r := Stamped(built, store, days, at);
      && (forall p: (int, int) :: p in r <==> p in built || (p.0 == store && p.1 in days))
      && (forall p: (int, int) :: p in r ==> r[p] == if p.0 == store && p.1 in days then at else built[p])
  {
    forall p: (int, int)
      ensures p in (set d | d in days :: (store, d)) <==> p.0 == store && p.1 in days
    {
      if p.0 == store && p.1 in days { assert (store, p.1) == p; }
      if p in (set d | d in days :: (store, d)) { var d :| d in days && (store, d) == p; }
    }
  }

  /** A rebuild that succeeds replaces the summaries of the days from the first to the last of its own by the sales it
      has read, and touches nothing else; one that fails writes nothing. */
  lemma RebuildWrites(w: World, ok: bool, s: Sku, d: int)
    requires w.flight.Some? && w.flight.value.Rebuilding? && Fits(w) && s in w.db
    ensures var t, f := Step(w, Rebuilt(ok)), w.flight.value;
      && s in t.db && t.flight.None? && t.db[s] == w.db[s].(summary := t.db[s].summary)
      && (if ok && s in f.sales && InSpan(f.days, d) then SameDay(t.db[s].summary, f.sales[s], d)
          else SameDay(t.db[s].summary, w.db[s].summary, d))
  {
    hide Fits, InSpan, RebuildReturned;
  }

  /** A recomputation reads the stock and the summary of its SKU, not the sales; it may start again while it runs, but
      not beside another transaction. */
  lemma RecomputeStarts(w: World, id: int)
    ensures var t := Step(w, StartRecompute(id));
      if w.q.live.Some? && CurrentWork(w.q).days == {} && id in CurrentWork(w.q).skus &&
         (w.flight.None? || (w.flight.value.Recomputing? && w.flight.value.s.id == id))
      then
        var s := Sku(w.q.live.value.current, id);
        && t == w.(flight := t.flight, tried := w.tried[s := w.clock], clock := w.clock + 1)
        && t.flight.Some? && t.flight.value.Recomputing? && t.flight.value.s == s
        && t.flight.value.inputs ==
             if s in w.db then Some(Inputs(stock := w.db[s].stock, sales := w.db[s].summary)) else None
      else t == w
  {
    hide CurrentWork, ReadsLostDay;
  }

  /** A recomputation that succeeds stores what it derived from what it has read, for its SKU alone. */
  lemma RecomputeWrites(w: World, ok: bool, s: Sku)
    requires w.flight.Some? && w.flight.value.Recomputing? && Fits(w) && s in w.db
    ensures var t, f := Step(w, Recomputed(ok)), w.flight.value;
      && s in t.db && t.flight.None?
      && t.db[s] == if ok && s == f.s && f.inputs.Some? then w.db[s].(derived := f.inputs.value) else w.db[s]
  {
    hide Fits, SkuReturned;
  }

  /** A commit gives the changed SKUs of its store their new stock and sales and owes one call for them; their summaries
      and derived results stay behind. */
  lemma CommitWrites(w: World, store: int, changes: map<int, Inputs>, days: set<int>, s: Sku)
    requires LegalCommit(w.db, store, changes, days) && s in w.db
    ensures var t := Step(w, Commit(store, changes, days));
      && s in t.db && t.owed == w.owed + [Owed(store, changes.Keys, days)] && t.q == w.q
      && t.db[s] == if s.store == store && s.id in changes
                    then w.db[s].(stock := changes[s.id].stock, sales := changes[s.id].sales) else w.db[s]
  {
    hide LegalCommit;
  }

  /** Commits change existing SKUs of positive id, and the sales of the announced span only. */
  lemma LegalIs(db: Db, store: int, changes: map<int, Inputs>, days: set<int>)
    ensures LegalCommit(db, store, changes, days) <==> forall id :: id in changes ==>
      0 < id && Sku(store, id) in db && forall d :: !InSpan(days, d) ==>
        (d in db[Sku(store, id)].sales <==> d in changes[id].sales) &&
        (d in changes[id].sales ==> db[Sku(store, id)].sales[d] == changes[id].sales[d])
  {
    hide InSpan;
    if LegalCommit(db, store, changes, days) {
      forall id, d | id in changes && !InSpan(days, d)
        ensures SameDay(db[Sku(store, id)].sales, changes[id].sales, d)
      {}
    }
  }
}
